# UntimedExplosion: a Dafny model of the room and game engine

UntimedExplosion is a party-game server. Players wait in a lobby named by a
short room code, mark themselves ready, and the lobby turns into a game. In
the game, players of the Sherlock and Moriarty teams take turns with a wire
cutter, cutting one of another player's cables each time. A Safe cable does
nothing, cutting every Defusing cable wins for Sherlock, and the Bomb wins
for Moriarty. A round ends after one cut per player, and then the remaining
cables are dealt anew.

This project models that engine and proves what it promises:

- `src/gameplay.rs`: the lobby's player map, building a game, dealing
  cables, a cut, and the next round;
- `src/game.rs`: the playing player, the game handlers (`/game/events`, the
  stream guard, `game_won`, `/game/cut`);
- `src/lobby.rs`: the registry handlers (`create`, `join`, the
  `add_player` of `/lobby/events`, `ready`, the stream guard, `start`) and
  the fire-time sweeps.

Modules follow the program:

- `Gameplay`: the value types and the cable and team tables.
- `Dealing`: map iteration orders and the counting used to split a pool.
- `Scoring`: the counters of a cut and the books they keep.
- `PlayingPlayers` and `Pools`: the game's player record, and the cables of
  all players pooled.
- `Games`: the `Game` class.
- `Lobbies`: the `Lobby` class.
- `Registry`: the shared `GlobalState`.
- `LobbyRoutes` and `GameRoutes`: the handlers.

How the model stands in for the parts of the program it cannot run:

- A game owns its players by value (a `HashMap<u32, Player>`), so a player
  is a datatype value in a `map`. Updating a player in place means storing
  a new value under the same key.
- A `Game`, a `Lobby` and the `GlobalState` are classes, because they are
  shared behind mutexes and their fields are updated in place.
- Every `shuffle` is an arbitrary permutation: a sequence with the same
  multiset as the original.
- `choose` is an arbitrary key of the map.
- HashMap iteration order is a sequence `order` that lists every key once.
  The model fixes it when the game is built.
- The random draws of the code and id re-roll loops are an input sequence
  `draws`. The caller guarantees that some draw ends the loop.
- Cookies are inputs. A player id that cannot be read is `None`.
- What a handler would send over the players' channels is returned instead.

The central invariant is `Games.ValidIn`: the token is held by a player, and
`defusingRemaining` is never below the number of Defusing cables in the
hands. Every operation keeps it, so the `usize` decrement of a Defusing cut
never underflows. While a game is being played, the stronger invariant
`Games.LiveIn` holds:

- `defusingRemaining` is exactly the number of Defusing cables in the hands;
- the single Bomb is still in play;
- cut and uncut cables together are the 5n cables dealt;
- while the Bomb is in play, the cables in the hands plus the cables cut this round are a multiple of n.

So at the end of every round the pool splits evenly, and redealing it drops
no cable.

## Model

| member | source | states |
|---|---|---|
| Gameplay.CablesCount | src/gameplay.rs:136-142 | for n players: n defusing cables, one bomb, and `5n - n - 1` safe ones, so 5n cables in all |
| Gameplay.Repeat | src/gameplay.rs:8-22 | one `repeat(x).take(k)` of `repeated_vec!`: k entries, each of them x (RepeatMultiset gives its multiset) |
| Gameplay.CablePool | src/gameplay.rs:162-163 | the unshuffled list `repeated_vec!` builds for n players holds 5n cables |
| Gameplay.CablePoolContents | src/gameplay.rs:162-163 | the unshuffled pool has 5n cables: exactly 4n-1 Safe, n Defusing and one Bomb |
| Gameplay.FiveEach | src/gameplay.rs:182 | with 4 to 8 players the pool splits into five cables per player, none left over |
| Gameplay.TeamTable | src/gameplay.rs:148-153 | the team table for n players has n or n+1 entries, and exactly n iff n is 5, 6 or 8 |
| Gameplay.DealtTeams | src/gameplay.rs:154-160 | the first n entries of any shuffle of the table hold n teams, neither team above its table count, and exactly the table's counts for 5, 6 and 8 players |
| Dealing.Enumerate | src/gameplay.rs:183 | an iteration order of a key set lists every key exactly once |
| Dealing.EnumeratesCovers | src/gameplay.rs:183 | an iteration order covers every key of the map |
| Dealing.QuotRem | src/gameplay.rs:182 | the quotient and remainder used in contracts are `/` and `%` |
| Dealing.QuotTimes | src/gameplay.rs:182-185 | n hands of `len / n` cables leave `len % n` of `len` over |
| Scoring.Tally | src/gameplay.rs:202-218 | a cut's counters and outcome: the bomb wins for Moriarty and changes no counter; a defusing cut takes one off `defusing`; any other cut adds one to `cutted`; Sherlock wins iff no defusing cable is owed, before RoundEnd iff `cutted == n`, otherwise Nothing |
| Scoring.CutKeepsCount | src/gameplay.rs:204-206 | a cut Defusing cable was owed, so the decrement does not underflow, and the rest still covers the hands |
| Scoring.TallyKeepsBooks | src/gameplay.rs:200-218 | one cut keeps the books; the bomb stays in play unless it was the one cut; a cut ending nothing leaves the round open; a cut ending the round leaves a multiple of n cables |
| Scoring.FreshBooks | src/gameplay.rs:162-174 | a fresh deal balances the books with the bomb in play |
| Scoring.DealFive | src/gameplay.rs:182 | the initial pool of 5n divides into hands of five |
| PlayingPlayers.Connected | src/game.rs:85-87 | a player is connected exactly while its receiver slot is empty, i.e. a stream holds the read end (Attach makes it true, Detach false) |
| PlayingPlayers.NewPlayer | src/game.rs:72-83 | a new player keeps the id and name, takes the team, has no cables dealt or cut, and is not connected |
| PlayingPlayers.CloneData | src/game.rs:49-56 | a snapshot reports id, name and cut cables, and is connected iff the stream holds the read end |
| PlayingPlayers.CutCable | src/game.rs:101-106 | the cable cut comes from the hand (old hand = new hand plus the cable, as multisets), is appended to the revealed cables, and nothing else changes |
| PlayingPlayers.Attach | src/game.rs:305-313 | attaching fails, changing nothing, when the read end is gone; otherwise it takes the read end, so the player is connected, and drains the queue |
| PlayingPlayers.Detach | src/game.rs:203-206 | detaching puts the read end back, so the player is not connected, and keeps everything else |
| Pools.GatherUpdate | src/gameplay.rs:224-228 | replacing one player changes the pooled cables by exactly that player's old and new cables |
| Pools.GatherOutside | src/gameplay.rs:224-228 | maps agreeing on the listed players' cables pool the same |
| Pools.GatherEmpty | src/gameplay.rs:156-160 | freshly seated players pool no cables |
| Pools.GatherConcat | src/gameplay.rs:183-185 | the pooled hands are the hands dealt, joined in iteration order |
| Pools.CutFromPools | src/gameplay.rs:200 | a cut moves exactly one cable from the pool of hands to the pool of cut cables |
| Games.HandsOnly | src/gameplay.rs:183-185 | changing only hands keeps the seating, the cut cables and the teams |
| Games.MailboxOnly | src/game.rs:305-313 | changing only mailboxes keeps the seating, both pools and the teams |
| Games.MailboxKeeps | src/game.rs:203-206 | changing only mailboxes keeps a valid game valid and a live game live |
| Games.FreshGame | src/gameplay.rs:166-174 | a game just dealt the whole pool, with nothing cut and n defusing cables owed, is live |
| Games.Redealt | src/gameplay.rs:230-234 | redealing the same pool at the start of a round keeps a game live |
| Games.CutAccounts | src/gameplay.rs:200-218 | one cut keeps the game valid under the tallied counters; it keeps the books; a live game stays live when nothing ends, and is live with a reset round counter when the round ends |
| Games.Deal | src/gameplay.rs:183-185 | every player, in iteration order, gets `per` cables; `extra` are left; hands plus leftovers are the shuffled cables; only hands change |
| Games.DealStep | src/gameplay.rs:184 | one `split_off` step keeps the invariant of the deal |
| Games.HandOnly | src/gameplay.rs:184 | storing one hand changes nothing else of any player |
| Games.TakeHand | src/gameplay.rs:184 | moving the tail of what is left into a hand loses no cable |
| Games.TakeTurn | src/gameplay.rs:183-184 | dealing to the next player keeps earlier players' hands |
| Games.DealtAll | src/gameplay.rs:183-185 | after the last player, the pooled hands and the leftovers are the shuffled cables |
| Games.SeatPlayers | src/gameplay.rs:148-165 | the lobby's players are seated under their ids with teams dealt from the shuffled table, and the token goes to one of them |
| Games.Seat | src/gameplay.rs:156-160 | the j-th player in iteration order is seated fresh on the j-th team of the table |
| Games.SeatStep | src/gameplay.rs:159 | seating the next player keeps the seating so far |
| Games.SeatedAll | src/gameplay.rs:156-160 | once the whole order is seated, every lobby player is seated on its team |
| Games.Distribute | src/gameplay.rs:179-186 | each hand gets `len / n` of the shuffled cables; all cables dealt come from the input, `len % n` are dropped, all are dealt when n divides len, and only hands change |
| Games.LeftOver | src/gameplay.rs:182-185 | keeping `len % n` aside deals nothing from outside the pool, and the whole pool when n divides it |
| Games.Setup | src/gameplay.rs:144-177 | a new game has the lobby's ids, seated players with five cables each, the whole pool of 5n dealt, teams as the table allows, n defusing cables owed, and is live |
| Games.Game.constructor | src/gameplay.rs:144-177 | `Game::new`: the lobby's name, nothing cut this round, and everything Setup states |
| Games.Game.DistributeCables | src/gameplay.rs:179-186 | `distribute_cables` on the game's players, as Distribute states |
| Games.CutHandsOnce | src/gameplay.rs:200 | a cut stored back under the target's id, taking one cable from its hand, is a cut without a redeal as CutHands states: nobody else changes, the target loses exactly that cable, and the pool of hands loses exactly that cable |
| Games.RedealAfterCut | src/gameplay.rs:221-237 | a cut followed by `next_round`'s redeal still agrees with CutHands: the ids stay, only hands change and the cut cable joins the target's cut cables, each player holds `(len - 1) / n` of the `len` cables the cut found, nothing from outside the pool is dealt, and every cable but the cut one is dealt when n divides `len - 1`; without a redeal the players are as the cut left them |
| Games.Game.Cut | src/gameplay.rs:188-219 | DontHaveWireCutter iff the cutter lacks the token (checked first); CannotSelfCut iff the cutter names themself; an error iff one of the two; an error changes nothing; a success cuts a cable from the target's hand, leaving every other player and the rest of the target as they were (CutHands without a redeal), hands the token to the target, and sets the counters and outcome as Tally says; the game stays valid |
| Games.Game.Pool | src/gameplay.rs:224-228 | the `flat_map` of `next_round`: every cable still in a hand, players in iteration order; Cut takes exactly one cable from it and NextRound deals from it |
| Games.Game.CutTarget | src/gameplay.rs:200 | the target's cut stored back: one cable from its hand leaves the pool of hands |
| Games.Game.NextRound | src/gameplay.rs:221-237 | the round counter is reset; exhausted iff one cable per player is left, and then hands are unchanged; otherwise each player gets the pool divided by n from the old pool, all of it when n divides it; a round that ended on a live game leaves it live |
| Games.Game.Winners | src/game.rs:254-260 | the filter keeps exactly the listed players on the team |
| Games.Game.WinnersDistinct | src/game.rs:254-260 | filtering an iteration order lists each winner once |
| Games.Game.AttachStream | src/game.rs:305-313 | PlayingPlayers.Attach stored back in the map; the game's invariants are untouched |
| Games.Game.DetachStream | src/game.rs:203-206 | PlayingPlayers.Detach stored back in the map; the game's invariants are untouched |
| Games.Game.AnyConnected | src/game.rs:208-225 | the `any(connected)` emptiness test of the guard and the sweep: some player of the game has a stream attached |
| Lobbies.Lobby.constructor | src/gameplay.rs:76-81 | a new lobby is named as asked and has no players |
| Lobbies.Lobby.AddPlayer | src/gameplay.rs:83-94 | GameFull iff 8 already wait (checked first); AlreadyConnected iff the id is present; an error changes nothing; otherwise the player is inserted and the count grows by one; the lobby never exceeds 8 |
| Lobbies.Lobby.MayStart | src/gameplay.rs:100-102 | `may_start`: at least four players wait and every one is ready; a player entering or marked not ready makes it false (AddPlayer, LobbyRoutes.Ready), and LobbyRoutes.Start refuses exactly when it is false |
| Lobbies.Lobby.RemovePlayer | src/gameplay.rs:96-98 | exactly that id leaves; an absent id changes nothing |
| Lobbies.Lobby.Start | src/gameplay.rs:104-106 | `start` reads the lobby and builds a fresh game under its name over the same ids, dealt as Setup states (NewlyDealt: seated players, five cables each, the whole pool of 5n, teams from the table, n defusing cables owed) with nothing cut this round, so valid and live |
| Registry.GlobalState.constructor | src/common.rs:26-33 | the server starts with no lobbies and no games |
| LobbyRoutes.Upper | src/lobby.rs:161-163 | uppercasing keeps the length and maps every character |
| LobbyRoutes.UpperHasNoLower | src/lobby.rs:161-163 | no lower-case ASCII letter remains after uppercasing |
| LobbyRoutes.UpperIdempotent | src/lobby.rs:205 | uppercasing twice is uppercasing once, so `join` finds a code `create` made |
| LobbyRoutes.Candidates | src/lobby.rs:161-172 | `create` tries the requested code first if any, then each draw |
| LobbyRoutes.FirstOutside | src/lobby.rs:169-172 | the re-roll loop stops at the first candidate not taken, every earlier one being taken |
| LobbyRoutes.FreshCode | src/lobby.rs:161-173 | the chosen code is in neither registry and is the first such candidate |
| LobbyRoutes.Create | src/lobby.rs:160-176 | the chosen code was free in both registries; afterwards it maps to a fresh empty lobby of that name; no other lobby and no game changes |
| LobbyRoutes.SweepLobby | src/lobby.rs:180-192 | at fire time the code is dropped iff it is still registered and its lobby is empty |
| LobbyRoutes.Join | src/lobby.rs:205-216 | an unknown code is refused; otherwise the id is the first draw that is not a player of the lobby |
| LobbyRoutes.Enter | src/lobby.rs:258-276 | the `add_player` of `/lobby/events`, with its two errors; a player who enters is not ready, so the lobby cannot start yet |
| LobbyRoutes.Ready | src/lobby.rs:315-327 | with a readable id of a present player, only that player's flag is set; otherwise nothing changes |
| LobbyRoutes.Leave | src/lobby.rs:143-156 | the player leaves; the lobby's code leaves the registry iff the lobby is now empty |
| LobbyRoutes.Start | src/lobby.rs:352-376 | NotFound iff the code is missing or unknown; PreconditionRequired iff the lobby may not start; both change no registry; otherwise the code moves from `lobbys` to a fresh game in `games`, dealt from that lobby's players as Lobbies.Lobby.Start states, valid and live |
| GameRoutes.Roster | src/game.rs:318 | the snapshot lists every player's `clone_data`, in iteration order |
| GameRoutes.Events | src/game.rs:291-327 | the three refusals, each changing nothing; otherwise the stream is attached and drained, and opens with the snapshot and the player's own hand |
| GameRoutes.Disconnect | src/game.rs:196-211 | the read end goes back; the game counts as empty iff no player is connected |
| GameRoutes.SweepGame | src/game.rs:213-227 | at fire time the game is dropped iff its code is still registered and nobody is connected (also the sweep `start` schedules) |
| GameRoutes.GameWon | src/game.rs:248-272 | the winners are exactly the winning team's players, once each, and the game leaves the registry |
| GameRoutes.Refusal | src/game.rs:368-394 | the checks run in source order: each rejection holds iff every earlier check passed and that one fails; a cut passes iff the token holder names another player of the game |
| GameRoutes.Dispatch | src/game.rs:385-408 | a cut error maps to its own rejection and changes nothing; a win ends the game; a round end starts the next round and, when exhausted, ends the game for Moriarty; otherwise the game stays registered; the players change only when the next round deals the hands anew, and then as DealtAnew says (same ids, only hands, `len / n` each, nothing from outside the pool, all of it when n divides `len`) |
| GameRoutes.Play | src/game.rs:385-408 | the two errors of `Game::cut` (no token, self-cut) change nothing; a success reports a cable from the target's hand, the tallied outcome, and the winners and registry change as Dispatch says; the players are as CutHands states: cut once, and dealt anew exactly when the round ended without exhausting the pool |
| GameRoutes.CutRoute | src/game.rs:360-411 | `/game/cut`: rejected iff Refusal names a reason, and then with that reason and no change; otherwise played as Play states, players included |

## Left out

- Rocket is left out: routing, redirects, `FromRequest` guards and serde serialisation. Cookie values are inputs. The guard that finds the room is replaced by passing a room, so "You are not in a game/lobby" is not modelled.
- Concurrency and time are left out: mutexes and lock ordering, `tokio::spawn`, `sleep` and `Weak::upgrade`. Each sweep is modelled only as what it does when it fires (`SweepLobby`, `SweepGame`).
- Channel fan-out is left out. `broadcast` and `send_round` are not modelled, and neither are the `Connect`, `Disconnect`, `Cut` and `Win` messages they send. A cut returns its report and winners instead.
- The stream loops after setup are left out: the `select!` on shutdown, the heartbeat, and the `/lobby/events` loop with its `SelfLeave` signal. The `leave` route (src/lobby.rs:329-348) only signals that loop. Its effect is the stream guard's, which is `LobbyRoutes.Leave`.
- Random distributions are not modelled. Shuffles are arbitrary permutations, `choose` is an arbitrary key, and re-roll draws are an input sequence. The source loops forever if no draw is ever free; the model requires that one is.
- `LobbyRoutes.Upper` maps only ASCII letters. Unicode upper-casing, which can change the length of a string, is not modelled.
- `/lobby/events` is modelled only as its `add_player` (`LobbyRoutes.Enter`). Its cookie errors and its `Initialize` message are left out.
- src/main.rs is not part of this model (it is a prototype). src/common.rs is modelled only as the `GlobalState` constructor; no other part of it is in this model.
- The source unwraps some values. Those become preconditions:
  - the cut target holds a cable (`game.rs:103`);
  - a game has 4 to 8 players (`gameplay.rs:152`);
  - a defusing cable is owed before a Defusing cut (`gameplay.rs:205`; `Games.ValidIn` shows this always holds).
- Counters (`usize`) are unbounded `nat`s. Player ids are `u32`, modelled as a subset type.
- Team table for 4 and 7 players: it has one entry more than there are players, and `zip` deals only the first n shuffled entries, so one team gets one seat fewer than the table lists. `Gameplay.DealtTeams` states this.
- Leftover cables: `distribute_cables` drops the `len % n` cables left over (`Games.Distribute`). The books proved by `Games.CutAccounts` show that a live game ends every round with a multiple of n cables, so nothing is dropped in play.
- Games.Game.Cut: of the game's invariants, states only `Valid()`. That the books still balance and a live game stays live is proved on the player maps by `Games.CutAccounts`, which Cut applies. This keeps the proof of each method small.
- GameRoutes.Play: does not state that a game that goes on stays live. That is proved per cut by `Games.CutAccounts` and per round by `Games.Game.NextRound`.
- GameRoutes.CutRoute: does not state that a game that goes on stays live, for the same reason as `GameRoutes.Play`.
- GameRoutes.Dispatch: does not state that a game that goes on stays live, for the same reason as `GameRoutes.Play`.
- Registry.GlobalState.Valid: does not require every registered game to be valid. A game handler changes one game through its own reference, and tying each game's invariant to the registry would make every handler reason about every other registered game. Each handler requires and keeps `Valid()` of the game it is given.
