/**
 * The server's shared state (`GlobalState`): the waiting lobbies and the
 * running games, each registry keyed by room code. Rooms are shared
 * (`Arc<Mutex<_>>`), so both registries map codes to object references.
 */
module Registry {
  import opened Lobbies
  import opened Games

  class GlobalState {
    var lobbys: map<string, Lobby>
    var games: map<string, Game>

    /**
     * Every room is registered under its own name, every lobby keeps its
     * own invariant, and no code names both a lobby and a game.
     */
    ghost predicate Valid()
      reads this, lobbys.Values
    {
      && (forall code | code in lobbys :: lobbys[code].name == code && lobbys[code].Valid())
      && (forall code | code in games :: games[code].name == code)
      && lobbys.Keys !! games.Keys
    }

    /** The server starts with no rooms. */
    constructor ()
      ensures lobbys == map[] && games == map[]
      ensures Valid()
    {
      lobbys := map[];
      games := map[];
    }
  }
}
