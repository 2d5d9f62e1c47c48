/** The in-memory store of game states, keyed by game id
    (`InMemoryGameRepository`). */
module Repository {
  import opened Wrappers
  import opened Scores
  import opened GameStates
  import opened GameService

  /** The game ids of `states`, each counted once (Java's `map(gameId).distinct()`). */
  function Ids(states: set<GameState>): set<string> {
    set g | g in states :: g.gameId
  }

  /** No two of `states` share a game id. */
  predicate DistinctIds(states: set<GameState>) {
    forall g, h :: g in states && h in states && g.gameId == h.gameId ==> g == h
  }

  /** States with distinct ids have as many ids as states. */
  lemma {:induction false} IdsOfDistinct(states: set<GameState>)
    requires DistinctIds(states)
    ensures |Ids(states)| == |states|
    decreases |states|
  {
    if states != {} {
      var g :| g in states;
      var rest := states - {g};
      IdsOfDistinct(rest);
      assert Ids(states) == Ids(rest) + {g.gameId};
      assert g.gameId !in Ids(rest);
    }
  }

  /** Fewer states have no more ids. */
  lemma IdsMonotone(small: set<GameState>, large: set<GameState>)
    requires small <= large
    ensures Ids(small) <= Ids(large)
    ensures |Ids(small)| <= |Ids(large)|
  {
    var x, y := Ids(small), Ids(large);
    assert y == x + (y - x);
  }

  /** The winner's name as the repository compares it; none for a game without winner. */
  function WinnerName(g: GameState): (r: Option<string>)
    ensures r.Some? <==> g.winner.Some?
    ensures r.Some? ==> (r.value == "A" <==> g.winner.value == A) && (r.value == "B" <==> g.winner.value == B)
  {
    match g.winner
    case None => None
    case Some(p) => Some(p.Name())
  }

  class InMemoryGameRepository {
    /** The stored states. Java's `ConcurrentHashMap`, read sequentially here. */
    var games: map<string, GameState>

    /** Every state is stored under its own game id, as `save` keys it. */
    ghost predicate Valid()
      reads this
    {
      forall id :: id in games ==> games[id].gameId == id
    }

    /** A new repository holds no game. */
    constructor()
      ensures Valid()
      ensures games == map[]
    {
      games := map[];
    }

    /** `save`: stores the state under its game id, replacing any earlier
        state of that game. That id now finds the saved state, every other id
        finds what it found before, and a new id adds one game. */
    method Save(gameState: GameState)
      requires Valid()
      modifies this
      ensures Valid()
      ensures games == old(games)[gameState.gameId := gameState]
      ensures FindById(gameState.gameId) == Some(gameState)
      ensures forall id :: id != gameState.gameId ==> FindById(id) == old(FindById(id))
      ensures CountTotalGames() == old(CountTotalGames()) + (if gameState.gameId in old(games) then 0 else 1)
    {
      CountTotalIsSize(this);
      games := games[gameState.gameId := gameState];
      CountTotalIsSize(this);
    }

    /** `findById`: the state stored under the id, or none for an id never saved. */
    function FindById(gameId: string): (r: Option<GameState>)
      reads this
      ensures r.Some? <==> gameId in games
      ensures r.Some? ==> r.value == games[gameId]
    {
      if gameId in games then Some(games[gameId]) else None
    }

    /** `findAll`: every stored state, and only those. The order of Java's
        list is unspecified and is not modelled. */
    function FindAll(): (r: set<GameState>)
      reads this
      ensures forall id :: id in games ==> games[id] in r
      ensures forall g :: g in r ==> exists id :: id in games && games[id] == g
    {
      games.Values
    }

    /** `findFinishedGames`: the stored states that are finished, and only those. */
    function FindFinishedGames(): (r: set<GameState>)
      reads this
      ensures forall g :: g in r <==> g in FindAll() && g.isFinished
    {
      set g | g in games.Values && g.isFinished
    }

    /** `countTotalGames`: the number of distinct game ids among the stored states. */
    function CountTotalGames(): (r: nat)
      reads this
    {
      |Ids(FindAll())|
    }

    /** `countFinishedGames`: the number of distinct ids of finished games;
        never more than the total. */
    function CountFinishedGames(): (r: nat)
      reads this
      ensures r <= CountTotalGames()
    {
      IdsMonotone(FindFinishedGames(), FindAll());
      |Ids(FindFinishedGames())|
    }

    /** The finished games whose winner has the name `winner`. */
    function GamesWonBy(winner: string): (r: set<GameState>)
      reads this
      ensures forall g :: g in r <==> g in FindFinishedGames() && WinnerName(g) == Some(winner)
      ensures forall g :: g in r ==> g.winner.Some? && g.winner.value.Name() == winner
    {
      set g | g in FindFinishedGames() && WinnerName(g) == Some(winner)
    }

    /** `countGamesByWinner`: the number of distinct ids of finished games won
        by the player named `winner`; never more than the finished games. */
    function CountGamesByWinner(winner: string): (r: nat)
      reads this
      ensures r <= CountFinishedGames()
    {
      IdsMonotone(GamesWonBy(winner), FindFinishedGames());
      |Ids(GamesWonBy(winner))|
    }
  }

  /** In a valid repository no two stored states share an id. */
  lemma StoredIdsDistinct(repo: InMemoryGameRepository)
    requires repo.Valid()
    ensures DistinctIds(repo.FindAll())
    ensures Ids(repo.FindAll()) == repo.games.Keys
  {
  }

  /** Because the map is keyed by game id, the total count is the number of
      stored entries, and so is the number of states `findAll` returns. */
  lemma CountTotalIsSize(repo: InMemoryGameRepository)
    requires repo.Valid()
    ensures repo.CountTotalGames() == |repo.games|
    ensures |repo.FindAll()| == |repo.games|
  {
    StoredIdsDistinct(repo);
    IdsOfDistinct(repo.FindAll());
    assert |repo.games.Keys| == |repo.games|;
  }

  /** No game is won by a name other than "A" or "B". */
  lemma OnlyPlayersWin(repo: InMemoryGameRepository, winner: string)
    requires winner != "A" && winner != "B"
    ensures repo.CountGamesByWinner(winner) == 0
  {
    assert repo.GamesWonBy(winner) == {};
  }

  /** When the stored states are consistent, every finished game is won by
      A or by B and not both, so the two winner counts add up to the
      finished count. */
  lemma WinnerCountsSplit(repo: InMemoryGameRepository)
    requires repo.Valid()
    requires forall id :: id in repo.games ==> Consistent(repo.games[id])
    ensures repo.CountGamesByWinner("A") + repo.CountGamesByWinner("B") == repo.CountFinishedGames()
  {
    var fin, wonA, wonB := repo.FindFinishedGames(), repo.GamesWonBy("A"), repo.GamesWonBy("B");
    assert fin == wonA + wonB;
    StoredIdsDistinct(repo);
    assert Ids(fin) == Ids(wonA) + Ids(wonB);
    assert Ids(wonA) * Ids(wonB) == {};
  }

  /** The stored states after the service's calls `events`: each save stores
      its state under its game id, as `Save` does; the other calls leave the
      store alone. */
  function StoredAfter(games: map<string, GameState>, events: seq<Event>): map<string, GameState>
    decreases |events|
  {
    if events == [] then games
    else
      var next := match events[0]
        case Saved(st) => games[st.gameId := st]
        case _ => games;
      StoredAfter(next, events[1..])
  }

  /** Applying two logs is applying their concatenation. */
  lemma {:induction false} StoredAfterAppend(games: map<string, GameState>, a: seq<Event>, b: seq<Event>)
    ensures StoredAfter(games, a + b) == StoredAfter(StoredAfter(games, a), b)
    decreases |a|
  {
    if a == [] {
      assert a + b == b;
    } else {
      assert (a + b)[1..] == a[1..] + b;
      var next := match a[0]
        case Saved(st) => games[st.gameId := st]
        case _ => games;
      StoredAfterAppend(next, a[1..], b);
    }
  }

  /** The calls for one ball save exactly that ball's state. */
  lemma StoredAfterPoint(games: map<string, GameState>, st: GameState, p: Player)
    ensures StoredAfter(games, PointEvents(st, p)) == games[st.gameId := st]
  {
    var finish := if st.isFinished
      then [GameFinishedPublished(st), GamesPlayedIncremented, PlayerWinsIncremented(WinnerText(st.winner))]
      else [];
    var three := [Saved(st), PointScoredPublished(st, p), PointsScoredIncremented];
    StoredAfterAppend(games, three, finish);
    assert three[1..][1..][1..] == [];
    var saved := games[st.gameId := st];
    assert StoredAfter(saved, three[1..][1..]) == saved;
    assert StoredAfter(saved, finish) == saved by {
      if st.isFinished {
        assert finish[1..][1..][1..] == [];
        assert StoredAfter(saved, finish[1..][1..]) == saved;
      }
    }
  }

  /** After the service has played a game, the repository holds that game's
      final state under its id, and nothing else has changed; a game that
      played no ball stored nothing. */
  lemma {:induction false} ServiceStoresFinalState(games: map<string, GameState>, st: GameState, balls: string)
    ensures var run := Play(st, balls);
            StoredAfter(games, run.events)
            == if run.results == [] then games else games[st.gameId := run.final]
    decreases |balls|
  {
    if |balls| > 0 && !st.isFinished {
      var p := BallToPlayer(balls[0]);
      var next := st.AddPoint(p);
      PlayStep(st, balls);
      StoredAfterAppend(games, PointEvents(next, p), Play(next, balls[1..]).events);
      StoredAfterPoint(games, next, p);
      ServiceStoresFinalState(games[next.gameId := next], next, balls[1..]);
    }
  }
}
