/**
 * A player of a running game (src/game.rs `Player`): its identity and team,
 * its hand, the cables cut from it so far, and its mailbox. The mailbox is an
 * unbounded channel; `queue` holds what was sent and not yet received, and
 * `receiver` is the attachment slot that holds the read end while no stream
 * consumes it.
 *
 * A game owns its players by value (a `HashMap<u32, Player>`, never shared),
 * so a player is a value here and an update in place is a new value stored
 * back under the same key.
 */
module PlayingPlayers {
  import opened Wrappers
  import opened Gameplay

  /** The read end of a player's channel. */
  datatype Receiver = Receiver(owner: PlayerId)

  /** What `clone_data` reports of a player to others. */
  datatype PlayerData = PlayerData(id: PlayerId, name: string, revealedCables: seq<Cable>, connected: bool)

  /**
   * The game events a player's own stream opens with (src/game.rs
   * `Message`); the events fanned out to every player are not modelled.
   */
  datatype Message =
    | Error(reason: string)
    | Initialize(lobby: string, players: seq<PlayerData>, team: Team, wireCutters: PlayerId)
    | RoundStart(cables: seq<Cable>)

  datatype Player = Player(
    id: PlayerId,
    name: string,
    team: Team,
    cables: seq<Cable>,
    revealedCables: seq<Cable>,
    queue: seq<Message>,
    receiver: Option<Receiver>)

  /** A player is connected exactly while a stream holds its read end. */
  predicate Connected(p: Player) {
    p.receiver.None?
  }

  /** `q` is `p` with at most its hand changed. */
  predicate SameButHand(p: Player, q: Player) {
    && q.id == p.id && q.name == p.name && q.team == p.team
    && q.revealedCables == p.revealedCables && q.queue == p.queue && q.receiver == p.receiver
  }

  /** `q` is `p` with at most its mailbox (queue and attachment slot) changed. */
  predicate SameCards(p: Player, q: Player) {
    && q.id == p.id && q.name == p.name && q.team == p.team
    && q.cables == p.cables && q.revealedCables == p.revealedCables
  }

  /** `q` is `p` after cutting `c` from its hand: only its hand and revealed cables change. */
  predicate CutOne(p: Player, q: Player, c: Cable) {
    && q.id == p.id && q.name == p.name && q.team == p.team
    && q.revealedCables == p.revealedCables + [c] && q.queue == p.queue && q.receiver == p.receiver
  }

  /**
   * `p` is the lobby player `from` just seated: same id and name, nothing
   * cut, nothing queued, and the read end of its channel waiting in the slot.
   */
  predicate JustSeated(p: Player, from: WaitingPlayer) {
    && p.id == from.id && p.name == from.name
    && p.revealedCables == [] && p.queue == [] && p.receiver == Some(Receiver(from.id))
  }

  /**
   * `PlayingPlayer::new`: a fresh channel whose read end waits in the slot,
   * so the new player starts disconnected, with nothing dealt or cut.
   */
  function NewPlayer(from: WaitingPlayer, team: Team): (p: Player)
    ensures JustSeated(p, from) && p.team == team && p.cables == []
    ensures !Connected(p)
  {
    Player(from.id, from.name, team, [], [], [], Some(Receiver(from.id)))
  }

  /**
   * The `receiver.replace` of a dropped stream's guard: the read end goes back
   * into the slot, so the player is no longer connected.
   */
  function Detach(p: Player): (q: Player)
    ensures SameCards(p, q) && q.queue == p.queue && !Connected(q)
    ensures q.receiver == Some(Receiver(p.id))
  {
    p.(receiver := Some(Receiver(p.id)))
  }

  /** The public snapshot of a player: never its hand or its team. */
  function CloneData(p: Player): (d: PlayerData)
    ensures d.id == p.id && d.name == p.name && d.revealedCables == p.revealedCables
    ensures d.connected <==> Connected(p)
  {
    PlayerData(p.id, p.name, p.revealedCables, p.receiver.None?)
  }

  /**
   * `cut_cable`: shuffle the hand and pop its last cable, which is then
   * revealed. The hand must not be empty (the source unwraps the pop).
   * Nothing but the hand and the revealed cables changes.
   */
  method CutCable(p: Player) returns (q: Player, c: Cable)
    requires |p.cables| > 0
    ensures multiset(p.cables) == multiset(q.cables) + multiset{c}
    ensures c in p.cables && |q.cables| == |p.cables| - 1
    ensures CutOne(p, q, c)
  {
    var shuffled :| multiset(shuffled) == multiset(p.cables);
    assert |shuffled| == |multiset(shuffled)| == |p.cables|;
    c := shuffled[|shuffled| - 1];
    assert c in multiset(p.cables);
    var rest := shuffled[..|shuffled| - 1];
    assert shuffled == rest + [c];
    q := p.(cables := rest, revealedCables := p.revealedCables + [c]);
  }

  /**
   * Attaching a stream (the `receiver.take()` of `/game/events`): take the
   * read end out of the slot, or fail when it is gone because a stream holds
   * it already. On success every message queued while detached is received
   * and discarded.
   */
  method Attach(p: Player) returns (q: Player, r: Option<Receiver>)
    ensures r == p.receiver
    ensures r.None? ==> q == p
    ensures r.Some? ==> SameCards(p, q) && q.queue == []
    ensures Connected(q)
  {
    r := p.receiver;
    if r.None? {
      return p, r;
    }
    q := p.(receiver := None);
    while |q.queue| > 0
      invariant SameCards(p, q) && Connected(q)
      decreases |q.queue|
    {
      q := q.(queue := q.queue[1..]);
    }
  }
}
