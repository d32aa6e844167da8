/**
 * A lobby (src/gameplay.rs `Lobby`): a named room whose players wait, keyed
 * by id, until at least four of them are ready and the game is started.
 */
module Lobbies {
  import opened Wrappers
  import opened Gameplay
  import opened PlayingPlayers
  import opened Games

  /** `add_player` refuses a player once this many are waiting. */
  const Capacity := 8

  /** Every waiting player is stored under its own id. */
  predicate KeyedById(ps: map<PlayerId, WaitingPlayer>) {
    forall id | id in ps :: ps[id].id == id
  }

  /** Every waiting player has set its ready flag. */
  predicate AllReady(ps: map<PlayerId, WaitingPlayer>) {
    forall id | id in ps :: ps[id].ready
  }

  class Lobby {
    const name: string
    var players: map<PlayerId, WaitingPlayer>

    /** The lobby holds at most `Capacity` players, each under its own id. */
    ghost predicate Valid()
      reads this
    {
      |players| <= Capacity && KeyedById(players)
    }

    /** `Lobby::new`: nobody is waiting yet. */
    constructor (name: string)
      ensures this.name == name && players == map[]
      ensures Valid()
    {
      this.name := name;
      players := map[];
    }

    /**
     * `may_start`: at least four players wait and every one of them is
     * ready.
     */
    predicate MayStart()
      reads this
    {
      |players| >= 4 && AllReady(players)
    }

    /**
     * `add_player`: a full lobby refuses first, then a lobby that already
     * has the id; otherwise the player is inserted under its id. An error
     * changes nothing.
     */
    method AddPlayer(p: WaitingPlayer) returns (r: Result<(), JoinError>)
      modifies this
      ensures r == Failure(GameFull) <==> |old(players)| >= Capacity
      ensures r == Failure(AlreadyConnected) <==> |old(players)| < Capacity && p.id in old(players)
      ensures r.Failure? ==> players == old(players)
      ensures r.Success? ==> players == old(players)[p.id := p] && |players| == |old(players)| + 1
      ensures r.Success? && !p.ready ==> !MayStart()
      ensures old(Valid()) ==> Valid()
    {
      if |players| >= Capacity {
        return Failure(GameFull);
      }
      if p.id in players {
        return Failure(AlreadyConnected);
      }
      players := players[p.id := p];
      assert !players[p.id].ready ==> !AllReady(players);
      return Success(());
    }

    /** `remove_player`: that id leaves; an absent id changes nothing. */
    method RemovePlayer(id: PlayerId)
      modifies this
      ensures players == old(players) - {id}
      ensures id !in old(players) ==> players == old(players)
      ensures old(Valid()) ==> Valid()
    {
      players := players - {id};
    }

    /**
     * `start`: a game under the lobby's name over the same player ids,
     * dealt as the `Game` constructor says (NewlyDealt), valid and live. The
     * lobby itself is only read.
     * The count must lie in 4..=8 (the source's `unreachable!` in
     * `Game::new`).
     */
    method Start() returns (g: Game)
      requires Valid() && 4 <= |players|
      ensures fresh(g)
      ensures g.name == name && g.players.Keys == players.Keys
      ensures g.Valid() && g.Live()
      ensures g.cuttedCount == 0 && NewlyDealt(g.players, g.order, g.wireCutters, g.defusingRemaining, players)
    {
      g := new Game(name, players);
    }
  }
}
