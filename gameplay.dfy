/**
 * The value types of the game (src/gameplay.rs): teams, cables, cut outcomes,
 * the two error enums, the lobby-side player record, and the tables from
 * which a game is dealt.
 */
module Gameplay {

  /** Player ids are `u32` in the source. */
  type PlayerId = x: int | 0 <= x < 0x1_0000_0000

  datatype Team = Sherlock | Moriarty

  datatype Cable = Safe | Defusing | Bomb

  datatype CutOutcome = Win(team: Team) | RoundEnd | Nothing

  /** `errors::Join` */
  datatype JoinError = GameFull | AlreadyConnected

  /** `errors::Cut` */
  datatype CutError = DontHaveWireCutter | CannotSelfCut

  /** A player waiting in a lobby (src/lobby.rs `Player`, minus its sender). */
  datatype WaitingPlayer = WaitingPlayer(id: PlayerId, name: string, ready: bool)

  /** `std::iter::repeat(x).take(k)` */
  function Repeat<T>(x: T, k: nat): (r: seq<T>)
    ensures |r| == k
    ensures forall i | 0 <= i < k :: r[i] == x
  {
    seq(k, _ => x)
  }

  /** `k` copies of `x` make the multiset holding `x` exactly `k` times. */
  lemma {:induction false} RepeatMultiset<T>(x: T, k: nat)
    ensures multiset(Repeat(x, k)) == multiset{}[x := k]
  {
    if k > 0 {
      RepeatMultiset(x, k - 1);
      assert Repeat(x, k) == Repeat(x, k - 1) + [x];
    } else {
      assert Repeat(x, k) == [];
    }
  }

  /**
   * `Game::cables_count`: the numbers of safe, defusing and bomb cables for
   * `n` players. The `usize` subtraction `5n - n - 1` needs `n >= 1`.
   */
  function CablesCount(n: nat): (r: (nat, nat, nat))
    requires n >= 1
    ensures r.1 == n && r.2 == 1
    ensures r.0 + r.1 + r.2 == 5 * n
  {
    var defusing := n;
    var bomb := 1;
    (n * 5 - defusing - bomb, defusing, bomb)
  }

  /** The unshuffled cable list built by `Game::new` for `n` players. */
  function CablePool(n: nat): (r: seq<Cable>)
    requires n >= 1
    ensures |r| == 5 * n
  {
    var (safe, defusing, bomb) := CablesCount(n);
    Repeat(Safe, safe) + Repeat(Defusing, defusing) + Repeat(Bomb, bomb)
  }

  /** With 4 to 8 players the 5n cables split into five per player, none left over. */
  lemma FiveEach(n: nat)
    requires 4 <= n <= 8
    ensures |CablePool(n)| / n == 5 && |CablePool(n)| % n == 0
  {
    CablePoolContents(n);
    assert n == 4 || n == 5 || n == 6 || n == 7 || n == 8;
  }

  /** The pool holds 5n cables: 4n - 1 safe, n defusing and exactly one bomb. */
  lemma CablePoolContents(n: nat)
    requires n >= 1
    ensures |CablePool(n)| == 5 * n
    ensures multiset(CablePool(n)) == multiset{}[Safe := 4 * n - 1][Defusing := n][Bomb := 1]
  {
    RepeatMultiset(Safe, 4 * n - 1);
    RepeatMultiset(Defusing, n);
    RepeatMultiset(Bomb, 1);
  }

  /** The seats of the team table, keyed by player count (4..=8). */
  function SherlockSeats(n: nat): nat
    requires 4 <= n <= 8
  {
    if n <= 5 then 3 else if n == 6 then 4 else 5
  }

  function MoriartySeats(n: nat): nat
    requires 4 <= n <= 8
  {
    if n <= 6 then 2 else 3
  }

  /** The unshuffled team list `Game::new` builds from the table. */
  function TeamTable(n: nat): (r: seq<Team>)
    requires 4 <= n <= 8
    ensures n <= |r| <= n + 1
    ensures |r| == n <==> n in {5, 6, 8}
  {
    Repeat(Sherlock, SherlockSeats(n)) + Repeat(Moriarty, MoriartySeats(n))
  }

  /**
   * The teams of `n` seated players: exactly `n` of them, neither team with
   * more seats than the table gives it, and, when the table has exactly `n`
   * entries (5, 6 or 8 players), every seat of the table used.
   */
  predicate TeamsDealt(t: seq<Team>, n: nat)
    requires 4 <= n <= 8
  {
    && multiset(t)[Sherlock] + multiset(t)[Moriarty] == n
    && multiset(t)[Sherlock] <= SherlockSeats(n)
    && multiset(t)[Moriarty] <= MoriartySeats(n)
    && (n in {5, 6, 8} ==>
         multiset(t)[Sherlock] == SherlockSeats(n) && multiset(t)[Moriarty] == MoriartySeats(n))
  }

  /**
   * `players.iter().zip(teams)` hands out the first `n` entries of the shuffled
   * table. Together they are exactly `n` teams, no team gets more seats than
   * the table gives it, and for 5, 6 and 8 players the table is used whole.
   */
  lemma {:induction false} DealtTeams(shuffled: seq<Team>, n: nat)
    requires 4 <= n <= 8
    requires multiset(shuffled) == multiset(TeamTable(n))
    ensures |shuffled| >= n
    ensures TeamsDealt(shuffled[..n], n)
  {
    RepeatMultiset(Sherlock, SherlockSeats(n));
    RepeatMultiset(Moriarty, MoriartySeats(n));
    assert |shuffled| == |multiset(shuffled)| == |TeamTable(n)|;
    assert shuffled == shuffled[..n] + shuffled[n..];
    assert multiset(shuffled) == multiset(shuffled[..n]) + multiset(shuffled[n..]);
    TeamCount(shuffled[..n]);
  }

  /** Every entry of a team list is one of the two teams. */
  lemma {:induction false} TeamCount(s: seq<Team>)
    ensures multiset(s)[Sherlock] + multiset(s)[Moriarty] == |s|
  {
    if s != [] {
      TeamCount(s[1..]);
      assert s == [s[0]] + s[1..];
      assert multiset(s) == multiset{s[0]} + multiset(s[1..]);
      if s[0] == Sherlock {
        assert multiset(s)[Sherlock] == multiset(s[1..])[Sherlock] + 1;
      } else {
        assert multiset(s)[Moriarty] == multiset(s[1..])[Moriarty] + 1;
      }
    }
  }
}
