/**
 * The lobby handlers of src/lobby.rs on the shared registry: creating a
 * lobby under a fresh code, picking a fresh player id, entering, the ready
 * toggle, leaving, the fire-time sweep of an unused lobby, and moving a
 * lobby into the games registry.
 *
 * The random draws of the re-roll loops are inputs: `draws` lists what the
 * generator would return in turn, and the caller guarantees that one of
 * them ends the loop.
 */
module LobbyRoutes {
  import opened Wrappers
  import opened Gameplay
  import opened Lobbies
  import opened Games
  import opened Registry

  /** `char::to_uppercase` on ASCII letters; every other character is kept. */
  function UpperChar(c: char): char {
    if 'a' <= c <= 'z' then (c as int - 32) as char else c
  }

  /** `str::to_uppercase`, character by character. */
  function Upper(s: string): (u: string)
    ensures |u| == |s| && forall i | 0 <= i < |s| :: u[i] == UpperChar(s[i])
  {
    if |s| == 0 then [] else Upper(s[..|s| - 1]) + [UpperChar(s[|s| - 1])]
  }

  /** No lower-case ASCII letter survives `Upper`. */
  lemma UpperHasNoLower(s: string)
    ensures forall i | 0 <= i < |Upper(s)| :: !('a' <= Upper(s)[i] <= 'z')
  {
  }

  /**
   * Uppercasing twice is uppercasing once, so a code made by `create` is
   * found by `join` exactly when the typed code equals it up to case.
   */
  lemma {:induction false} UpperIdempotent(s: string)
    ensures Upper(Upper(s)) == Upper(s)
  {
    var u := Upper(s);
    assert forall i | 0 <= i < |u| :: UpperChar(u[i]) == u[i];
  }

  /** The codes `create` tries in turn: the requested one if any, then the random draws, uppercased. */
  function Candidates(requested: Option<string>, draws: seq<string>): (cs: seq<string>)
    ensures |cs| == |draws| + (if requested.Some? then 1 else 0)
  {
    var all := (if requested.Some? then [requested.value] else []) + draws;
    seq(|all|, i requires 0 <= i < |all| => Upper(all[i]))
  }

  /**
   * The re-roll loop of `create` and `join`: starting from the first
   * candidate, draw again while the current one is taken. It stops at the
   * first candidate outside `taken`.
   */
  method FirstOutside<T(==)>(cands: seq<T>, taken: set<T>) returns (k: nat)
    requires exists i | 0 <= i < |cands| :: cands[i] !in taken
    ensures k < |cands| && cands[k] !in taken
    ensures forall j | 0 <= j < k :: cands[j] in taken
  {
    k := 0;
    while cands[k] in taken
      invariant k < |cands|
      invariant forall j | 0 <= j < k :: cands[j] in taken
      invariant exists i | k <= i < |cands| :: cands[i] !in taken
      decreases |cands| - k
    {
      k := k + 1;
    }
  }

  /**
   * The code `create` settles on: the first candidate that names neither a
   * lobby nor a game, every earlier one being taken.
   */
  method FreshCode(state: GlobalState, requested: Option<string>, draws: seq<string>) returns (code: string)
    requires exists i | 0 <= i < |Candidates(requested, draws)| ::
      Candidates(requested, draws)[i] !in state.lobbys.Keys + state.games.Keys
    ensures code !in state.lobbys && code !in state.games
    ensures exists k | 0 <= k < |Candidates(requested, draws)| ::
      && code == Candidates(requested, draws)[k]
      && forall j | 0 <= j < k :: Candidates(requested, draws)[j] in state.lobbys.Keys + state.games.Keys
  {
    var cands := Candidates(requested, draws);
    var k := FirstOutside(cands, state.lobbys.Keys + state.games.Keys);
    code := cands[k];
  }

  /**
   * `create` (src/lobby.rs): under both registry locks, take the fresh code
   * (FreshCode) and register a fresh empty lobby named by it. No other
   * lobby and no game changes.
   */
  method Create(state: GlobalState, requested: Option<string>, draws: seq<string>) returns (code: string)
    requires state.Valid()
    requires exists i | 0 <= i < |Candidates(requested, draws)| ::
      Candidates(requested, draws)[i] !in state.lobbys.Keys + state.games.Keys
    modifies state`lobbys
    ensures state.Valid()
    ensures code !in old(state.lobbys) && code !in state.games
    ensures exists k | 0 <= k < |Candidates(requested, draws)| ::
      && code == Candidates(requested, draws)[k]
      && forall j | 0 <= j < k :: Candidates(requested, draws)[j] in old(state.lobbys).Keys + state.games.Keys
    ensures code in state.lobbys && state.lobbys == old(state.lobbys)[code := state.lobbys[code]]
    ensures fresh(state.lobbys[code])
    ensures state.lobbys[code].name == code && state.lobbys[code].players == map[]
  {
    code := FreshCode(state, requested, draws);
    var lobby := new Lobby(code);
    state.lobbys := state.lobbys[code := lobby];
  }

  /**
   * The sweep `create` schedules, at the time it fires: the lobby is
   * dropped only if its code is still registered and nobody waits in it.
   */
  method SweepLobby(state: GlobalState, code: string)
    requires state.Valid()
    modifies state`lobbys
    ensures state.Valid()
    ensures state.lobbys ==
      if code in old(state.lobbys) && old(state.lobbys[code].players) == map[]
      then old(state.lobbys) - {code} else old(state.lobbys)
  {
    if code in state.lobbys && state.lobbys[code].players == map[] {
      state.lobbys := state.lobbys - {code};
    }
  }

  /**
   * `join`: look the uppercased code up, then draw ids until one is not a
   * player of that lobby. Nothing changes; the id is handed back to the
   * client.
   */
  method Join(state: GlobalState, lobby: string, draws: seq<PlayerId>) returns (r: Option<PlayerId>)
    requires Upper(lobby) in state.lobbys ==>
      exists i | 0 <= i < |draws| :: draws[i] !in state.lobbys[Upper(lobby)].players
    ensures r.None? <==> Upper(lobby) !in state.lobbys
    ensures r.Some? ==> r.value !in state.lobbys[Upper(lobby)].players
    ensures r.Some? ==> exists k | 0 <= k < |draws| ::
      && r.value == draws[k]
      && forall j | 0 <= j < k :: draws[j] in state.lobbys[Upper(lobby)].players
  {
    var name := Upper(lobby);
    if name !in state.lobbys {
      return None;
    }
    var k := FirstOutside(draws, state.lobbys[name].players.Keys);
    return Some(draws[k]);
  }

  /**
   * The `add_player` of `/lobby/events`: the player enters not ready, so a
   * lobby that takes them cannot start until they are.
   */
  method Enter(lobby: Lobby, id: PlayerId, name: string) returns (r: Result<(), JoinError>)
    modifies lobby
    ensures r == Failure(GameFull) <==> |old(lobby.players)| >= Capacity
    ensures r == Failure(AlreadyConnected) <==> |old(lobby.players)| < Capacity && id in old(lobby.players)
    ensures r.Failure? ==> lobby.players == old(lobby.players)
    ensures r.Success? ==> lobby.players == old(lobby.players)[id := WaitingPlayer(id, name, false)]
    ensures r.Success? ==> !lobby.MayStart()
    ensures old(lobby.Valid()) ==> lobby.Valid()
  {
    r := lobby.AddPlayer(WaitingPlayer(id, name, false));
  }

  /**
   * `ready`: with a readable id of a player in the lobby, set that player's
   * flag; otherwise nothing changes.
   */
  method Ready(lobby: Lobby, id: Option<PlayerId>, ready: bool)
    modifies lobby
    ensures id.Some? && id.value in old(lobby.players) ==>
      lobby.players == old(lobby.players)[id.value := old(lobby.players)[id.value].(ready := ready)]
    ensures !(id.Some? && id.value in old(lobby.players)) ==> lobby.players == old(lobby.players)
    ensures id.Some? && id.value in old(lobby.players) && !ready ==> !lobby.MayStart()
    ensures old(lobby.Valid()) ==> lobby.Valid()
  {
    if id.Some? && id.value in lobby.players {
      var p := lobby.players[id.value];
      lobby.players := lobby.players[id.value := p.(ready := ready)];
      assert !lobby.players[id.value].ready ==> !AllReady(lobby.players);
    }
  }

  /**
   * The lobby stream's `ConnectionGuard::drop`: the player leaves the lobby,
   * and a lobby left empty is taken out of the registry by its name.
   */
  method Leave(state: GlobalState, lobby: Lobby, id: PlayerId)
    requires state.Valid()
    modifies lobby, state`lobbys
    ensures lobby.players == old(lobby.players) - {id}
    ensures state.lobbys == if lobby.players == map[] then old(state.lobbys) - {lobby.name} else old(state.lobbys)
    ensures state.Valid()
  {
    lobby.RemovePlayer(id);
    if lobby.players == map[] {
      state.lobbys := state.lobbys - {lobby.name};
    }
  }

  /** The HTTP status `start` answers with. */
  datatype StartStatus = NotFound | PreconditionRequired | Started

  /**
   * `start`: an unknown code is not found and a lobby that may not start is
   * refused, both without changing either registry; otherwise the lobby
   * leaves `lobbys` and the game it starts, dealt as the `Game` constructor
   * says and so valid and live, is registered under the same code.
   */
  method Start(state: GlobalState, code: Option<string>) returns (r: StartStatus)
    requires state.Valid()
    modifies state`lobbys, state`games
    ensures state.Valid()
    ensures r == NotFound <==> code.None? || code.value !in old(state.lobbys)
    ensures r == PreconditionRequired <==>
      code.Some? && code.value in old(state.lobbys) && !old(state.lobbys[code.value].MayStart())
    ensures r != Started ==> state.lobbys == old(state.lobbys) && state.games == old(state.games)
    ensures r == Started ==>
      && state.lobbys == old(state.lobbys) - {code.value}
      && code.value in state.games
      && state.games == old(state.games)[code.value := state.games[code.value]]
      && fresh(state.games[code.value])
      && state.games[code.value].players.Keys == old(state.lobbys[code.value].players).Keys
      && state.games[code.value].Valid() && state.games[code.value].Live()
      && state.games[code.value].cuttedCount == 0
      && NewlyDealt(state.games[code.value].players, state.games[code.value].order,
                    state.games[code.value].wireCutters, state.games[code.value].defusingRemaining,
                    old(state.lobbys[code.value].players))
  {
    if code.None? || code.value !in state.lobbys {
      return NotFound;
    }
    var lobby := state.lobbys[code.value];
    if !lobby.MayStart() {
      return PreconditionRequired;
    }
    var name := lobby.name;
    state.lobbys := state.lobbys - {name};
    var game := lobby.Start();
    state.games := state.games[game.name := game];
    return Started;
  }
}
