/**
 * The game handlers of src/game.rs on a running game and the shared
 * registry: attaching a player's event stream, the guard that detaches it,
 * the fire-time sweep of an abandoned game, announcing a win, and the cut
 * request with the dispatch of its outcome.
 *
 * Messages fanned out to the players' channels (`broadcast`, `send_round`)
 * are not modelled; what a handler announces is returned instead.
 */
module GameRoutes {
  import opened Wrappers
  import opened Gameplay
  import opened Dealing
  import opened PlayingPlayers
  import opened Scoring
  import opened Games
  import opened Registry

  /** The `clone_data` snapshots of the listed players, in that order. */
  function Roster(ps: map<PlayerId, Player>, ids: seq<PlayerId>): (r: seq<PlayerData>)
    requires forall i | 0 <= i < |ids| :: ids[i] in ps
    ensures |r| == |ids| && forall i | 0 <= i < |ids| :: r[i] == CloneData(ps[ids[i]])
  {
    if |ids| == 0 then [] else Roster(ps, ids[..|ids| - 1]) + [CloneData(ps[ids[|ids| - 1]])]
  }

  /**
   * `/game/events` up to the stream loop: a missing id, a stranger and a
   * player whose read end is already taken are each refused with their own
   * error, changing nothing. Otherwise the player's stream is attached and
   * drained, and the stream opens with the game's snapshot (taken after the
   * attachment) and the player's own hand. The cards, and so the game's
   * invariants, are untouched.
   */
  method Events(game: Game, caller: Option<PlayerId>) returns (events: seq<Message>)
    requires game.Valid()
    modifies game`players
    ensures game.Valid()
    ensures old(game.Live()) ==> game.Live()
    ensures caller.None? ==>
      events == [Error("Invalid player id")] && game.players == old(game.players)
    ensures caller.Some? && caller.value !in old(game.players) ==>
      events == [Error("You are not part of this game")] && game.players == old(game.players)
    ensures caller.Some? && caller.value in old(game.players) && Connected(old(game.players[caller.value])) ==>
      events == [Error("You are already connected to this game")] && game.players == old(game.players)
    ensures caller.Some? && caller.value in old(game.players) && !Connected(old(game.players[caller.value])) ==>
      var id := caller.value;
      && id in game.players
      && game.players == old(game.players)[id := game.players[id]]
      && SameCards(old(game.players[id]), game.players[id])
      && Connected(game.players[id]) && game.players[id].queue == []
      && events == [
           Initialize(game.name, Roster(game.players, game.order), game.players[id].team, game.wireCutters),
           RoundStart(game.players[id].cables)]
  {
    if caller.None? {
      return [Error("Invalid player id")];
    }
    var id := caller.value;
    if id !in game.players {
      return [Error("You are not part of this game")];
    }
    var r := game.AttachStream(id);
    if r.None? {
      return [Error("You are already connected to this game")];
    }
    var snapshot := Roster(game.players, game.order);
    events := [Initialize(game.name, snapshot, game.players[id].team, game.wireCutters),
               RoundStart(game.players[id].cables)];
  }

  /**
   * The game stream's `ConnectionGuard::drop`: the read end goes back into
   * the player's slot, and the game counts as empty when no player is
   * connected any more (which schedules `SweepGame`).
   */
  method Disconnect(game: Game, id: PlayerId) returns (empty: bool)
    requires game.Valid() && id in game.players
    modifies game`players
    ensures game.players == old(game.players)[id := Detach(old(game.players[id]))]
    ensures !Connected(game.players[id])
    ensures empty <==> !game.AnyConnected()
    ensures game.Valid()
    ensures old(game.Live()) ==> game.Live()
  {
    game.DetachStream(id);
    empty := !game.AnyConnected();
  }

  /**
   * The sweep scheduled for an empty game (and by `start` for a new one),
   * at the time it fires: the game is dropped only if its code is still
   * registered and none of its players is connected.
   */
  method SweepGame(state: GlobalState, code: string)
    requires state.Valid()
    modifies state`games
    ensures state.Valid()
    ensures state.games ==
      if code in old(state.games) && !old(state.games[code].AnyConnected())
      then old(state.games) - {code} else old(state.games)
  {
    if code in state.games && !state.games[code].AnyConnected() {
      state.games := state.games - {code};
    }
  }

  /** `ws` lists every player of `team`, and nobody else, once each. */
  ghost predicate WinnersOf(ws: seq<PlayerId>, ps: map<PlayerId, Player>, team: Team) {
    && NoDups(ws)
    && forall id :: id in ws <==> id in ps && ps[id].team == team
  }

  /**
   * `game_won`: the winners are exactly the players of the winning team,
   * each listed once, and the game leaves the registry.
   */
  method GameWon(state: GlobalState, game: Game, team: Team) returns (winners: seq<PlayerId>)
    requires state.Valid() && game.Seated()
    modifies state`games
    ensures state.Valid()
    ensures state.games == old(state.games) - {game.name}
    ensures WinnersOf(winners, game.players, team)
  {
    EnumeratesCovers(game.order, game.players.Keys);
    winners := game.Winners(game.order, team);
    game.WinnersDistinct(game.order, team);
    state.games := state.games - {game.name};
  }

  /** Why `/game/cut` answers Bad Request, one variant per message of the source. */
  datatype Rejection =
    | InvalidId        // "Invalid player id"
    | NotInGame        // "You are not part of this game"
    | TargetNotInGame  // "The player you specified is not part of this game"
    | NoWireCutter     // "You don't have the wire cutter"
    | SelfCut          // "You can't cut one of your own cables"

  /**
   * The checks of `/game/cut` and then of `Game::cut`, in the order they
   * are made: the first one that fails names the rejection, and a cut
   * passes them all exactly when a player of the game holding the token
   * names another player of the game.
   */
  function Refusal(caller: Option<PlayerId>, players: set<PlayerId>, holder: PlayerId, target: PlayerId): (e: Option<Rejection>)
    ensures e == Some(InvalidId) <==> caller.None?
    ensures e == Some(NotInGame) <==> caller.Some? && caller.value !in players
    ensures e == Some(TargetNotInGame) <==> caller.Some? && caller.value in players && target !in players
    ensures e == Some(NoWireCutter) <==>
      caller.Some? && caller.value in players && target in players && caller.value != holder
    ensures e == Some(SelfCut) <==>
      caller.Some? && caller.value in players && target in players && caller.value == holder && target == holder
    ensures e.None? <==>
      caller.Some? && caller.value in players && target in players && caller.value == holder && target != holder
  {
    if caller.None? then Some(InvalidId)
    else if caller.value !in players then Some(NotInGame)
    else if target !in players then Some(TargetNotInGame)
    else if caller.value != holder then Some(NoWireCutter)
    else if target == caller.value then Some(SelfCut)
    else None
  }

  /**
   * What a successful cut announces: the cable cut, the outcome reported by
   * `Game::cut`, and the winning team with its players when the game ended.
   */
  datatype Report = Report(cable: Cable, outcome: CutOutcome, won: Option<Team>, winners: seq<PlayerId>)

  /**
   * What a successful cut leaves behind, for a game that `Game::cut` found
   * with `d0` defusing cables owed, `c0` cables cut this round, `n0` players
   * and `pool0` cables in the hands, and that now has the token at `wc`,
   * `d` cables owed, `c` cut this round and the players `ps`, registered in
   * `games` (`games0` before): the token passed to the target, the counters
   * and the outcome are those of Tally, the game is won exactly on a winning
   * outcome or when a round ends with one cable per player left (then by
   * Moriarty), the winners are that team's players, and a won game leaves
   * the registry. The round counter restarts when a round ends.
   */
  ghost predicate CutPlayed(rep: Report, d0: nat, c0: nat, n0: nat, pool0: nat, target: PlayerId,
                            wc: PlayerId, d: nat, c: nat, ps: map<PlayerId, Player>,
                            games0: map<string, Game>, games: map<string, Game>, name: string)
  {
    && (rep.cable == Defusing ==> d0 > 0)
    && var t := Tally(rep.cable, d0, c0, n0);
    && rep.outcome == t.2
    && wc == target
    && d == t.0
    && c == (if t.2 == RoundEnd then 0 else t.1)
    && (t.2.Win? ==> rep.won == Some(t.2.team))
    && (t.2 == Nothing ==> rep.won == None)
    && (t.2 == RoundEnd ==>
         (rep.won.Some? <==> pool0 == n0 + 1)
         && (rep.won.Some? ==> rep.won == Some(Moriarty)))
    && (rep.won.Some? ==> WinnersOf(rep.winners, ps, rep.won.value))
    && games == (if rep.won.Some? then games0 - {name} else games0)
  }

  /** The report of a round that ended with cables to deal anew. */
  predicate Redeals(rep: Report) {
    rep.outcome == RoundEnd && rep.won.None?
  }

  /**
   * The two `match`es of `/game/cut` on what `Game::cut` returned. An error
   * is answered with its message and changes nothing. A cut took the game
   * from `d0` defusing cables owed, `c0` cables cut this round, `n0`
   * players and `pool0` cables in the hands to the state it is in now:
   * then
   * a win ends the game, the end of a round starts the next one, and a round
   * left with one cable per player ends the game for Moriarty. Nothing ends
   * the game otherwise. The players change only when the next round deals
   * the hands anew.
   */
  method Dispatch(state: GlobalState, game: Game, result: Result<(Cable, CutOutcome), CutError>, ghost target: PlayerId,
                  ghost d0: nat, ghost c0: nat, ghost n0: nat, ghost pool0: nat)
    returns (r: Result<Report, Rejection>)
    requires state.Valid() && game.Valid()
    requires result.Success? ==>
      && game.wireCutters == target && |game.players| == n0 && |game.Pool()| + 1 == pool0
      && (result.value.0 == Defusing ==> d0 > 0)
      && (game.defusingRemaining, game.cuttedCount, result.value.1) == Tally(result.value.0, d0, c0, n0)
    modifies game`players, game`cuttedCount, state`games
    ensures state.Valid() && game.Valid()
    ensures r.Failure? <==> result.Failure?
    ensures result.Failure? ==>
      && r.error == (if result.error == DontHaveWireCutter then NoWireCutter else SelfCut)
      && unchanged(game, state)
    ensures r.Success? ==>
      && r.value.cable == result.value.0
      && CutPlayed(r.value, d0, c0, n0, pool0, target, game.wireCutters, game.defusingRemaining,
                   game.cuttedCount, game.players, old(state.games), state.games, game.name)
    ensures r.Success? && !Redeals(r.value) ==> game.players == old(game.players)
    ensures r.Success? && Redeals(r.value) ==> DealtAnew(old(game.players), game.players, game.order)
  {
    if result.Failure? {
      return Failure(if result.error == DontHaveWireCutter then NoWireCutter else SelfCut);
    }
    var (cable, outcome) := result.value;
    var won, winners := None, [];
    match outcome {
      case Nothing =>
      case Win(team) =>
        won := Some(team);
        winners := GameWon(state, game, team);
      case RoundEnd =>
        var exhausted := game.NextRound();
        if exhausted {
          won := Some(Moriarty);
          winners := GameWon(state, game, Moriarty);
        }
    }
    return Success(Report(cable, outcome, won, winners));
  }

  /**
   * `/game/cut`: a request that fails one of the checks (Refusal) is
   * rejected without changing anything; otherwise the cut is played (Play).
   */
  method CutRoute(state: GlobalState, game: Game, caller: Option<PlayerId>, target: PlayerId)
    returns (r: Result<Report, Rejection>)
    requires state.Valid() && game.Valid()
    requires caller.Some? && caller.value == game.wireCutters && target != caller.value && target in game.players ==>
      |game.players[target].cables| > 0
    modifies game, state`games
    ensures state.Valid() && game.Valid()
    ensures r.Failure? <==> Refusal(caller, old(game.players).Keys, old(game.wireCutters), target).Some?
    ensures r.Failure? ==> Refusal(caller, old(game.players).Keys, old(game.wireCutters), target) == Some(r.error)
    ensures r.Failure? ==> unchanged(game, state)
    ensures r.Success? ==>
      && r.value.cable in old(game.players[target].cables)
      && CutPlayed(r.value, old(game.defusingRemaining), old(game.cuttedCount), |old(game.players)|,
                   |old(game.Pool())|, target, game.wireCutters, game.defusingRemaining, game.cuttedCount,
                   game.players, old(state.games), state.games, game.name)
    ensures r.Success? ==> CutHands(old(game.players), game.players, game.order, target, r.value.cable, Redeals(r.value))
  {
    if caller.None? {
      return Failure(InvalidId);
    }
    var id := caller.value;
    if id !in game.players {
      return Failure(NotInGame);
    }
    if target !in game.players {
      return Failure(TargetNotInGame);
    }
    r := Play(state, game, id, target);
  }

  /**
   * The cut itself, once the caller and the target are known to be players
   * of the game. The two errors of `Game::cut` change nothing. A successful
   * cut ends the game on a win, starts the next round on the end of a round,
   * and ends it for Moriarty when that round has only one cable per player
   * left.
   */
  method Play(state: GlobalState, game: Game, cutter: PlayerId, target: PlayerId)
    returns (r: Result<Report, Rejection>)
    requires state.Valid() && game.Valid() && cutter in game.players && target in game.players
    requires cutter == game.wireCutters && target != cutter ==> |game.players[target].cables| > 0
    modifies game, state`games
    ensures state.Valid() && game.Valid()
    ensures r.Failure? <==> cutter != old(game.wireCutters) || target == cutter
    ensures r.Failure? ==>
      && r.error == (if cutter != old(game.wireCutters) then NoWireCutter else SelfCut)
      && unchanged(game, state)
    ensures r.Success? ==>
      && r.value.cable in old(game.players[target].cables)
      && CutPlayed(r.value, old(game.defusingRemaining), old(game.cuttedCount), |old(game.players)|,
                   |old(game.Pool())|, target, game.wireCutters, game.defusingRemaining, game.cuttedCount,
                   game.players, old(state.games), state.games, game.name)
    ensures r.Success? ==> CutHands(old(game.players), game.players, game.order, target, r.value.cable, Redeals(r.value))
  {
    ghost var d0, c0, n0, pool0, ps0 := game.defusingRemaining, game.cuttedCount, |game.players|, |game.Pool()|, game.players;
    var result := game.Cut(cutter, target);
    ghost var mid := game.players;
    r := Dispatch(state, game, result, target, d0, c0, n0, pool0);
    if r.Success? {
      RedealAfterCut(ps0, mid, game.players, game.order, target, r.value.cable, Redeals(r.value));
    }
  }
}
