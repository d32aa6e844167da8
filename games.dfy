/**
 * A running game (src/gameplay.rs `Game`): its players, the wire-cutter
 * token, and the two round counters. The set of players never changes after
 * construction; `order` is the (unspecified but fixed) iteration order of
 * the player map.
 */
module Games {
  import opened Wrappers
  import opened Gameplay
  import opened Dealing
  import opened PlayingPlayers
  import opened Pools
  import opened Scoring

  /** The teams of the listed players, in that order. */
  function TeamsOf(ps: map<PlayerId, Player>, ids: seq<PlayerId>): (t: seq<Team>)
    requires forall i | 0 <= i < |ids| :: ids[i] in ps
    ensures |t| == |ids| && forall i | 0 <= i < |ids| :: t[i] == ps[ids[i]].team
  {
    if |ids| == 0 then [] else TeamsOf(ps, ids[..|ids| - 1]) + [ps[ids[|ids| - 1]].team]
  }

  /** The player map is keyed by id, holds 4 to 8 players, and `order` lists each once. */
  ghost predicate SeatedIn(ps: map<PlayerId, Player>, order: seq<PlayerId>) {
    && 4 <= |ps| <= 8
    && |order| == |ps|
    && Enumerates(order, ps.Keys)
    && (forall id | id in ps :: ps[id].id == id)
  }

  /**
   * The invariant every operation keeps: the token `wc` is held by a player,
   * and the counter `defusing` is never below the number of defusing cables
   * in the hands, so the `usize` decrement of a defusing cut cannot underflow.
   */
  ghost predicate ValidIn(ps: map<PlayerId, Player>, order: seq<PlayerId>, wc: PlayerId, defusing: nat) {
    && SeatedIn(ps, order)
    && wc in ps
    && multiset(Gather(ps, order, false))[Defusing] <= defusing
  }

  /** A valid game whose books balance. */
  ghost predicate AccountedIn(ps: map<PlayerId, Player>, order: seq<PlayerId>, wc: PlayerId, defusing: nat, cutted: nat) {
    && ValidIn(ps, order, wc, defusing)
    && Books(Gather(ps, order, false), |Gather(ps, order, true)|, |ps|, defusing, cutted)
  }

  /** A game nobody has won yet, in the middle of a round. */
  ghost predicate LiveIn(ps: map<PlayerId, Player>, order: seq<PlayerId>, wc: PlayerId, defusing: nat, cutted: nat) {
    && AccountedIn(ps, order, wc, defusing, cutted)
    && multiset(Gather(ps, order, false))[Bomb] == 1
    && defusing > 0
    && cutted < |ps|
  }

  /**
   * Changing nothing but the hands keeps the seating, the cut cables and the
   * teams.
   */
  lemma HandsOnly(ps: map<PlayerId, Player>, ps': map<PlayerId, Player>, order: seq<PlayerId>)
    requires SeatedIn(ps, order)
    requires ps'.Keys == ps.Keys
    requires forall id | id in ps' :: SameButHand(ps[id], ps'[id])
    ensures SeatedIn(ps', order)
    ensures Gather(ps', order, true) == Gather(ps, order, true)
    ensures TeamsOf(ps', order) == TeamsOf(ps, order)
  {
    GatherOutside(ps', ps, order, true);
  }

  /**
   * Changing nothing but the mailboxes keeps the seating, both pools and the
   * teams.
   */
  lemma MailboxOnly(ps: map<PlayerId, Player>, ps': map<PlayerId, Player>, order: seq<PlayerId>)
    requires SeatedIn(ps, order)
    requires ps'.Keys == ps.Keys
    requires forall id | id in ps' :: SameCards(ps[id], ps'[id])
    ensures SeatedIn(ps', order)
    ensures Gather(ps', order, false) == Gather(ps, order, false)
    ensures Gather(ps', order, true) == Gather(ps, order, true)
    ensures TeamsOf(ps', order) == TeamsOf(ps, order)
  {
    GatherOutside(ps', ps, order, false);
    GatherOutside(ps', ps, order, true);
  }

  /** So a change of mailboxes keeps the invariant, and a live game live. */
  lemma MailboxKeeps(ps: map<PlayerId, Player>, ps': map<PlayerId, Player>, order: seq<PlayerId>,
                     wc: PlayerId, defusing: nat, cutted: nat)
    requires SeatedIn(ps, order)
    requires ps'.Keys == ps.Keys
    requires forall id | id in ps' :: SameCards(ps[id], ps'[id])
    ensures ValidIn(ps, order, wc, defusing) ==> ValidIn(ps', order, wc, defusing)
    ensures LiveIn(ps, order, wc, defusing, cutted) ==> LiveIn(ps', order, wc, defusing, cutted)
  {
    MailboxOnly(ps, ps', order);
  }

  /**
   * A game whose whole pool was just dealt to its seated players, with
   * nothing cut, every defusing cable owed and the token held, is live.
   */
  lemma FreshGame(ps: map<PlayerId, Player>, order: seq<PlayerId>, wc: PlayerId)
    requires SeatedIn(ps, order) && wc in ps
    requires multiset(Gather(ps, order, false)) == multiset(CablePool(|ps|))
    requires Gather(ps, order, true) == []
    ensures LiveIn(ps, order, wc, |ps|, 0)
  {
    FreshBooks(Gather(ps, order, false), |ps|);
  }

  /**
   * Dealing the hands anew at the start of a round keeps a game live when
   * the new hands pool the same cables and the cut cables stay as they were.
   */
  lemma Redealt(ps: map<PlayerId, Player>, ps': map<PlayerId, Player>, order: seq<PlayerId>, wc: PlayerId, defusing: nat)
    requires LiveIn(ps, order, wc, defusing, 0)
    requires SeatedIn(ps', order) && ps'.Keys == ps.Keys
    requires multiset(Gather(ps', order, false)) == multiset(Gather(ps, order, false))
    requires Gather(ps', order, true) == Gather(ps, order, true)
    ensures LiveIn(ps', order, wc, defusing, 0)
  {
    var pool, pool' := Gather(ps, order, false), Gather(ps', order, false);
    assert |pool'| == |multiset(pool')| == |multiset(pool)| == |pool|;
  }

  /**
   * One cut from the hands of a valid game (the cable leaves the pool of
   * hands and joins the cut ones, the token moves to a player) keeps the
   * game valid under the tallied counters. It keeps the books balanced, and
   * a live game stays live when the cut ends nothing and is live again with
   * the round counter reset when it ends the round.
   */
  lemma CutAccounts(ps: map<PlayerId, Player>, ps': map<PlayerId, Player>, order: seq<PlayerId>,
                    wc: PlayerId, wc': PlayerId, defusing: nat, cutted: nat, c: Cable)
    requires ValidIn(ps, order, wc, defusing)
    requires SeatedIn(ps', order) && ps'.Keys == ps.Keys && wc' in ps'
    requires multiset(Gather(ps', order, false)) + multiset{c} == multiset(Gather(ps, order, false))
    requires |Gather(ps', order, false)| + 1 == |Gather(ps, order, false)|
    requires |Gather(ps', order, true)| == |Gather(ps, order, true)| + 1
    ensures c == Defusing ==> defusing > 0
    ensures var t := Tally(c, defusing, cutted, |ps|);
      && ValidIn(ps', order, wc', t.0)
      && (AccountedIn(ps, order, wc, defusing, cutted) ==> AccountedIn(ps', order, wc', t.0, t.1))
      && (LiveIn(ps, order, wc, defusing, cutted) && t.2 == Nothing ==> LiveIn(ps', order, wc', t.0, t.1))
      && (LiveIn(ps, order, wc, defusing, cutted) && t.2 == RoundEnd ==> LiveIn(ps', order, wc', t.0, 0))
  {
    var pool, pool' := Gather(ps, order, false), Gather(ps', order, false);
    var shown := |Gather(ps, order, true)|;
    CutKeepsCount(pool, pool', defusing, c);
    if AccountedIn(ps, order, wc, defusing, cutted) {
      TallyKeepsBooks(pool, pool', shown, |ps|, defusing, cutted, c);
    }
  }

  /**
   * The players `ps` that a cut of `cable` from `target` leaves behind when
   * the players were `ps0`. The target's cut is revealed and nothing but
   * the hands changes for anybody. The cut cable leaves the pool of hands,
   * which otherwise loses nothing unless it was `redealt` with a remainder.
   * Without a redeal the target loses exactly that cable and every other
   * player stays as they were. After a redeal every player holds
   * `len / n` of the `len` cables left.
   */
  ghost predicate CutHands(ps0: map<PlayerId, Player>, ps: map<PlayerId, Player>, order: seq<PlayerId>,
                           target: PlayerId, cable: Cable, redealt: bool)
  {
    && SeatedIn(ps0, order) && SeatedIn(ps, order) && ps.Keys == ps0.Keys && target in ps0
    && CutOne(ps0[target], ps[target], cable)
    && (forall id | id in ps && id != target :: SameButHand(ps0[id], ps[id]))
    && |Gather(ps0, order, false)| > 0
    && multiset(Gather(ps, order, false)) + multiset{cable} <= multiset(Gather(ps0, order, false))
    && (!redealt || Divides(|ps0|, |Gather(ps0, order, false)| - 1) ==>
         multiset(Gather(ps, order, false)) + multiset{cable} == multiset(Gather(ps0, order, false)))
    && (!redealt ==>
         && ps == ps0[target := ps[target]]
         && multiset(ps0[target].cables) == multiset(ps[target].cables) + multiset{cable})
    && (redealt ==> forall id | id in ps :: |ps[id].cables| == Quot(|Gather(ps0, order, false)| - 1, |ps0|))
  }

  /** A cut stored back under the target's id is a cut without a redeal. */
  lemma CutHandsOnce(ps0: map<PlayerId, Player>, ps: map<PlayerId, Player>, order: seq<PlayerId>,
                     target: PlayerId, cable: Cable)
    requires SeatedIn(ps0, order) && SeatedIn(ps, order) && target in ps0 && target in ps
    requires ps == ps0[target := ps[target]]
    requires CutOne(ps0[target], ps[target], cable)
    requires multiset(ps0[target].cables) == multiset(ps[target].cables) + multiset{cable}
    requires multiset(Gather(ps, order, false)) + multiset{cable} == multiset(Gather(ps0, order, false))
    ensures CutHands(ps0, ps, order, target, cable, false)
  {
  }

  /**
   * The players `ps` after the hands of `mid` were dealt anew by
   * `next_round`: only the hands change, each player holds `len / n` of
   * the `len` cables pooled, and the new pool takes nothing that was not
   * in the old one, and all of it when `n` divides `len`.
   */
  ghost predicate DealtAnew(mid: map<PlayerId, Player>, ps: map<PlayerId, Player>, order: seq<PlayerId>) {
    && SeatedIn(mid, order) && SeatedIn(ps, order) && ps.Keys == mid.Keys
    && (forall id | id in ps :: SameButHand(mid[id], ps[id]))
    && (forall id | id in ps :: |ps[id].cables| == Quot(|Gather(mid, order, false)|, |mid|))
    && multiset(Gather(ps, order, false)) <= multiset(Gather(mid, order, false))
    && (Divides(|mid|, |Gather(mid, order, false)|) ==>
         multiset(Gather(ps, order, false)) == multiset(Gather(mid, order, false)))
  }

  /**
   * Dealing the hands anew after a cut (`next_round`, not exhausted) keeps
   * what the cut did to the players and deals what is left evenly; without
   * a redeal the players stay as the cut left them.
   */
  lemma RedealAfterCut(ps0: map<PlayerId, Player>, mid: map<PlayerId, Player>, ps: map<PlayerId, Player>,
                       order: seq<PlayerId>, target: PlayerId, cable: Cable, redealt: bool)
    requires CutHands(ps0, mid, order, target, cable, false)
    requires redealt ==> DealtAnew(mid, ps, order)
    requires !redealt ==> ps == mid
    ensures CutHands(ps0, ps, order, target, cable, redealt)
  {
  }

  /**
   * The loop of `distribute_cables`: walking the players in iteration order,
   * each takes the last `per` cables of what is left as its hand, and
   * `extra` cables remain. Only the hands change.
   */
  method Deal(ps: map<PlayerId, Player>, order: seq<PlayerId>, shuffled: seq<Cable>, per: nat, ghost extra: nat)
    returns (dealt: map<PlayerId, Player>, rest: seq<Cable>)
    requires Enumerates(order, ps.Keys)
    requires |shuffled| == Times(|order|, per) + extra
    ensures dealt.Keys == ps.Keys
    ensures forall id | id in dealt :: SameButHand(ps[id], dealt[id]) && |dealt[id].cables| == per
    ensures |rest| == extra
    ensures multiset(Gather(dealt, order, false)) + multiset(rest) == multiset(shuffled)
  {
    dealt := ps;
    rest := shuffled;
    ghost var hands: seq<seq<Cable>> := [];
    var i := 0;
    while i < |order|
      invariant DealtUpTo(ps, order, shuffled, per, extra, dealt, rest, hands, i)
      decreases |order| - i
    {
      var cut := |rest| - per;
      DealStep(ps, order, shuffled, per, extra, dealt, rest, hands, i);
      dealt, rest, hands := dealt[order[i] := dealt[order[i]].(cables := rest[cut..])], rest[..cut], hands + [rest[cut..]];
      i := i + 1;
    }
    DealtAll(ps, order, shuffled, per, extra, dealt, rest, hands);
  }

  /**
   * The invariant of the deal after `i` players: the first `i` players of
   * the order hold the `i` hands taken so far, `per` cables each, and the
   * hands together with what is left are the shuffled cables.
   */
  ghost predicate DealtUpTo(ps: map<PlayerId, Player>, order: seq<PlayerId>, shuffled: seq<Cable>, per: nat, extra: nat,
                            dealt: map<PlayerId, Player>, rest: seq<Cable>, hands: seq<seq<Cable>>, i: int)
  {
    && 0 <= i <= |order| && |hands| == i
    && (forall j | 0 <= j < |order| :: order[j] in ps)
    && dealt.Keys == ps.Keys
    && (forall id | id in dealt :: SameButHand(ps[id], dealt[id]))
    && |rest| == Times(|order| - i, per) + extra
    && multiset(Concat(hands)) + multiset(rest) == multiset(shuffled)
    && (forall j | 0 <= j < i :: dealt[order[j]].cables == hands[j] && |hands[j]| == per)
  }

  /** One player of the deal: the last `per` cables left become the next hand. */
  lemma DealStep(ps: map<PlayerId, Player>, order: seq<PlayerId>, shuffled: seq<Cable>, per: nat, extra: nat,
                 dealt: map<PlayerId, Player>, rest: seq<Cable>, hands: seq<seq<Cable>>, i: int)
    requires Enumerates(order, ps.Keys)
    requires DealtUpTo(ps, order, shuffled, per, extra, dealt, rest, hands, i) && i < |order|
    ensures per <= |rest|
    ensures DealtUpTo(ps, order, shuffled, per, extra,
                      dealt[order[i] := dealt[order[i]].(cables := rest[|rest| - per..])],
                      rest[..|rest| - per], hands + [rest[|rest| - per..]], i + 1)
  {
    TimesStep(|order| - i, per);
    var cut := |rest| - per;
    TakeHand(Concat(hands), rest, hands, cut, multiset(shuffled));
    TakeTurn(order, dealt, hands, rest[cut..], per, i);
    HandOnly(ps, dealt, order[i], rest[cut..]);
  }

  /** Replacing one hand changes nothing else of anybody. */
  lemma HandOnly(ps: map<PlayerId, Player>, dealt: map<PlayerId, Player>, id: PlayerId, hand: seq<Cable>)
    requires dealt.Keys == ps.Keys && id in dealt
    requires forall k | k in dealt :: SameButHand(ps[k], dealt[k])
    ensures dealt[id := dealt[id].(cables := hand)].Keys == ps.Keys
    ensures forall k | k in dealt[id := dealt[id].(cables := hand)] ::
      SameButHand(ps[k], dealt[id := dealt[id].(cables := hand)][k])
  {
  }

  /** Moving the tail of what is left into a new hand keeps every cable. */
  lemma TakeHand(pooled: seq<Cable>, rest: seq<Cable>, hands: seq<seq<Cable>>, cut: int, all: multiset<Cable>)
    requires pooled == Concat(hands) && multiset(pooled) + multiset(rest) == all && 0 <= cut <= |rest|
    ensures multiset(Concat(hands + [rest[cut..]])) + multiset(rest[..cut]) == all
  {
    assert rest == rest[..cut] + rest[cut..];
    assert (hands + [rest[cut..]])[..|hands|] == hands;
  }

  /** Giving the next player in the order a hand keeps the earlier players' hands. */
  lemma TakeTurn(order: seq<PlayerId>, dealt: map<PlayerId, Player>, hands: seq<seq<Cable>>, hand: seq<Cable>, per: nat, i: int)
    requires NoDups(order) && 0 <= i < |order| && |hands| == i && |hand| == per
    requires forall j | 0 <= j < |order| :: order[j] in dealt
    requires forall j | 0 <= j < i :: dealt[order[j]].cables == hands[j] && |hands[j]| == per
    ensures forall j | 0 <= j <= i ::
      && dealt[order[i] := dealt[order[i]].(cables := hand)][order[j]].cables == (hands + [hand])[j]
      && |(hands + [hand])[j]| == per
  {
    forall j | 0 <= j < i ensures order[j] != order[i] {
      NoDupsIndex(order, j, i);
    }
  }

  /** After the last player, the pool of hands and what is left are the shuffled cables. */
  lemma DealtAll(ps: map<PlayerId, Player>, order: seq<PlayerId>, shuffled: seq<Cable>, per: nat, extra: nat,
                 dealt: map<PlayerId, Player>, rest: seq<Cable>, hands: seq<seq<Cable>>)
    requires Enumerates(order, ps.Keys)
    requires DealtUpTo(ps, order, shuffled, per, extra, dealt, rest, hands, |order|)
    ensures dealt.Keys == ps.Keys
    ensures forall id | id in dealt :: SameButHand(ps[id], dealt[id]) && |dealt[id].cables| == per
    ensures |rest| == extra
    ensures multiset(Gather(dealt, order, false)) + multiset(rest) == multiset(shuffled)
  {
    GatherConcat(dealt, order, hands);
    EnumeratesCovers(order, ps.Keys);
    forall id | id in dealt ensures |dealt[id].cables| == per {
      var j :| 0 <= j < |order| && order[j] == id;
    }
  }

  /**
   * The first half of `Game::new`: shuffle the team table, seat the lobby
   * players one team each in iteration order (the `zip`), and choose the
   * wire-cutter holder among them.
   */
  method SeatPlayers(lobby: map<PlayerId, WaitingPlayer>) returns (ps: map<PlayerId, Player>, ord: seq<PlayerId>, cutter: PlayerId)
    requires 4 <= |lobby| <= 8
    requires forall id | id in lobby :: lobby[id].id == id
    ensures SeatedIn(ps, ord) && ps.Keys == lobby.Keys && cutter in ps
    ensures forall id | id in ps :: JustSeated(ps[id], lobby[id]) && ps[id].cables == []
    ensures Gather(ps, ord, false) == [] && Gather(ps, ord, true) == []
    ensures TeamsDealt(TeamsOf(ps, ord), |ps|)
  {
    ord := Enumerate(lobby.Keys);
    var n := |ord|;
    var teams :| multiset(teams) == multiset(TeamTable(n));
    DealtTeams(teams, n);
    ps := Seat(lobby, ord, teams);
    assert ord[0] in ps;
    cutter :| cutter in ps;
    GatherEmpty(ps, ord, false);
    GatherEmpty(ps, ord, true);
  }

  /**
   * The `zip` of `Game::new`: walking the lobby in iteration order, the j-th
   * player becomes a fresh playing player on the j-th team of the table.
   */
  method Seat(lobby: map<PlayerId, WaitingPlayer>, ord: seq<PlayerId>, teams: seq<Team>)
    returns (ps: map<PlayerId, Player>)
    requires Enumerates(ord, lobby.Keys) && |teams| >= |ord|
    ensures ps.Keys == lobby.Keys
    ensures forall j | 0 <= j < |ord| :: ps[ord[j]].team == teams[j]
    ensures forall id | id in ps :: JustSeated(ps[id], lobby[id]) && ps[id].cables == []
    ensures TeamsOf(ps, ord) == teams[..|ord|]
  {
    ps := map[];
    var i := 0;
    while i < |ord|
      invariant SeatedUpTo(lobby, ord, teams, ps, i)
      decreases |ord| - i
    {
      SeatStep(lobby, ord, teams, ps, i);
      ps := ps[ord[i] := NewPlayer(lobby[ord[i]], teams[i])];
      i := i + 1;
    }
    SeatedAll(lobby, ord, teams, ps);
  }

  /**
   * The first `i` players of the order are seated, each on its team of the
   * table, and nobody else is.
   */
  ghost predicate SeatedUpTo(lobby: map<PlayerId, WaitingPlayer>, ord: seq<PlayerId>, teams: seq<Team>,
                             ps: map<PlayerId, Player>, i: int)
  {
    && 0 <= i <= |ord| <= |teams| && |ps| == i
    && (forall id | id in ps :: id in lobby && JustSeated(ps[id], lobby[id]) && ps[id].cables == [])
    && (forall j | 0 <= j < i :: ord[j] in ps && ps[ord[j]].team == teams[j])
    && (forall j | i <= j < |ord| :: ord[j] !in ps)
  }

  /** Seating the next player of the order keeps the seating so far. */
  lemma SeatStep(lobby: map<PlayerId, WaitingPlayer>, ord: seq<PlayerId>, teams: seq<Team>,
                 ps: map<PlayerId, Player>, i: int)
    requires Enumerates(ord, lobby.Keys) && SeatedUpTo(lobby, ord, teams, ps, i) && i < |ord|
    ensures SeatedUpTo(lobby, ord, teams, ps[ord[i] := NewPlayer(lobby[ord[i]], teams[i])], i + 1)
  {
    var id := ord[i];
    var ps' := ps[id := NewPlayer(lobby[id], teams[i])];
    assert id !in ps;
    assert |ps'| == i + 1;
    forall k | k in ps' ensures k in lobby && JustSeated(ps'[k], lobby[k]) && ps'[k].cables == [] {
      if k != id {
        assert ps'[k] == ps[k];
      }
    }
    forall j | 0 <= j < i ensures ord[j] in ps' && ps'[ord[j]] == ps[ord[j]] {
    }
    forall j | i < j < |ord| ensures ord[j] !in ps' {
      NoDupsIndex(ord, i, j);
    }
  }

  /** Once the whole order is seated, every lobby player is. */
  lemma SeatedAll(lobby: map<PlayerId, WaitingPlayer>, ord: seq<PlayerId>, teams: seq<Team>, ps: map<PlayerId, Player>)
    requires Enumerates(ord, lobby.Keys) && SeatedUpTo(lobby, ord, teams, ps, |ord|)
    ensures ps.Keys == lobby.Keys
    ensures forall j | 0 <= j < |ord| :: ps[ord[j]].team == teams[j]
    ensures forall id | id in ps :: JustSeated(ps[id], lobby[id]) && ps[id].cables == []
    ensures TeamsOf(ps, ord) == teams[..|ord|]
  {
    assert |lobby.Keys - ps.Keys| == |lobby.Keys| - |ps.Keys|;
  }

  /**
   * `distribute_cables` on the player map: shuffle the cables and, walking
   * the players in iteration order, `split_off` the last `len / n` cables of
   * what is left as each player's hand. The `len % n` cables left over are
   * dropped. Only the hands change.
   */
  method Distribute(ps: map<PlayerId, Player>, order: seq<PlayerId>, cables: seq<Cable>)
    returns (dealt: map<PlayerId, Player>)
    requires SeatedIn(ps, order)
    ensures dealt.Keys == ps.Keys
    ensures forall id | id in dealt ::
      SameButHand(ps[id], dealt[id]) && |dealt[id].cables| == Quot(|cables|, |ps|)
    ensures SeatedIn(dealt, order)
    ensures Gather(dealt, order, true) == Gather(ps, order, true)
    ensures TeamsOf(dealt, order) == TeamsOf(ps, order)
    ensures multiset(Gather(dealt, order, false)) <= multiset(cables)
    ensures |Gather(dealt, order, false)| + Rem(|cables|, |ps|) == |cables|
    ensures Divides(|ps|, |cables|) ==> multiset(Gather(dealt, order, false)) == multiset(cables)
  {
    var shuffled :| multiset(shuffled) == multiset(cables);
    assert |shuffled| == |multiset(shuffled)| == |cables|;
    var n := |order|;
    var per := Quot(|shuffled|, n);
    QuotTimes(|shuffled|, n);
    var rest;
    dealt, rest := Deal(ps, order, shuffled, per, Rem(|shuffled|, n));
    HandsOnly(ps, dealt, order);
    LeftOver(Gather(dealt, order, false), rest, cables, n);
  }

  /**
   * A deal that keeps `Rem(|cables|, n)` of the shuffled cables aside hands
   * out nothing that was not in the pool, and all of it when `n` divides the
   * pool's size.
   */
  lemma LeftOver(hands: seq<Cable>, rest: seq<Cable>, cables: seq<Cable>, n: nat)
    requires n > 0 && |rest| == Rem(|cables|, n)
    requires multiset(hands) + multiset(rest) == multiset(cables)
    ensures multiset(hands) <= multiset(cables)
    ensures |hands| + Rem(|cables|, n) == |cables|
    ensures Divides(n, |cables|) ==> multiset(hands) == multiset(cables)
  {
    assert |multiset(hands)| + |multiset(rest)| == |multiset(cables)|;
  }

  /**
   * What `Game::new` leaves behind for the lobby players `lobby`: each of
   * them seated with nothing cut and five cables in hand, the whole pool of
   * 5n cables dealt, the team table dealt in iteration order, one defusing
   * cable owed per player, and a live game.
   */
  ghost predicate NewlyDealt(ps: map<PlayerId, Player>, ord: seq<PlayerId>, cutter: PlayerId, defusing: nat,
                             lobby: map<PlayerId, WaitingPlayer>)
  {
    && ps.Keys == lobby.Keys && defusing == |ps|
    && LiveIn(ps, ord, cutter, defusing, 0)
    && (forall id | id in ps :: JustSeated(ps[id], lobby[id]) && |ps[id].cables| == 5)
    && multiset(Gather(ps, ord, false)) == multiset(CablePool(|ps|))
    && TeamsDealt(TeamsOf(ps, ord), |ps|)
  }

  /**
   * `Game::new` on values: seat the lobby players (SeatPlayers), count the
   * defusing cables of the pool of 5n, and deal that pool five per player.
   */
  method Setup(lobby: map<PlayerId, WaitingPlayer>)
    returns (ps: map<PlayerId, Player>, ord: seq<PlayerId>, cutter: PlayerId, defusing: nat)
    requires 4 <= |lobby| <= 8
    requires forall id | id in lobby :: lobby[id].id == id
    ensures NewlyDealt(ps, ord, cutter, defusing, lobby)
  {
    var seated;
    seated, ord, cutter := SeatPlayers(lobby);
    var n := |ord|;
    var counts := CablesCount(n);
    defusing := counts.1;
    DealFive(n);
    ps := Distribute(seated, ord, CablePool(n));
    FreshGame(ps, ord, cutter);
  }

  class Game {
    const name: string
    var players: map<PlayerId, Player>
    const order: seq<PlayerId>
    var wireCutters: PlayerId
    var defusingRemaining: nat
    var cuttedCount: nat

    ghost predicate Seated()
      reads this`players
    {
      SeatedIn(players, order)
    }

    /** Every cable still in some hand, in iteration order (the `flat_map` of `next_round`). */
    function Pool(): seq<Cable>
      requires Seated()
      reads this`players
    {
      Gather(players, order, false)
    }

    /** Every cable cut so far. */
    function RevealedPool(): seq<Cable>
      requires Seated()
      reads this`players
    {
      Gather(players, order, true)
    }

    /** The teams of the players, in iteration order. */
    function Teams(): (t: seq<Team>)
      requires Seated()
      reads this`players
      ensures |t| == |players|
    {
      TeamsOf(players, order)
    }

    ghost predicate Valid()
      reads this`players, this`wireCutters, this`defusingRemaining
    {
      ValidIn(players, order, wireCutters, defusingRemaining)
    }

    ghost predicate Live()
      reads this
    {
      LiveIn(players, order, wireCutters, defusingRemaining, cuttedCount)
    }

    /**
     * The round just ended with the bomb still in play: with the round
     * counter reset, the game would be live.
     */
    ghost predicate RoundOver()
      reads this
    {
      LiveIn(players, order, wireCutters, defusingRemaining, 0)
    }

    /**
     * `Game::new`: deal the shuffled team table one team per lobby player
     * (truncated by `zip`), give the wire cutter to some player, and deal the
     * shuffled pool of 5n cables, five per player.
     */
    constructor (name: string, lobbyPlayers: map<PlayerId, WaitingPlayer>)
      requires 4 <= |lobbyPlayers| <= 8
      requires forall id | id in lobbyPlayers :: lobbyPlayers[id].id == id
      ensures this.name == name && cuttedCount == 0
      ensures NewlyDealt(players, order, wireCutters, defusingRemaining, lobbyPlayers)
    {
      var ps, ord, cutter, defusing := Setup(lobbyPlayers);
      this.name := name;
      players := ps;
      order := ord;
      wireCutters := cutter;
      defusingRemaining := defusing;
      cuttedCount := 0;
    }

    /**
     * `distribute_cables`: shuffle the cables and, walking the players in
     * iteration order, `split_off` the last `len / n` cables of what is left
     * as each player's hand. The `len % n` cables left over are dropped.
     * Only the hands change.
     */
    method DistributeCables(cables: seq<Cable>)
      requires Seated()
      modifies this`players
      ensures players.Keys == old(players.Keys)
      ensures forall id | id in players ::
        SameButHand(old(players[id]), players[id]) && |players[id].cables| == Quot(|cables|, |players|)
      ensures Seated()
      ensures RevealedPool() == old(RevealedPool()) && Teams() == old(Teams())
      ensures multiset(Pool()) <= multiset(cables)
      ensures |Pool()| + Rem(|cables|, |players|) == |cables|
      ensures Divides(|players|, |cables|) ==> multiset(Pool()) == multiset(cables)
    {
      players := Distribute(players, order, cables);
    }

    /**
     * `cut`: only the token holder may cut, and never themself. The target
     * loses one cable at random and receives the token; the outcome is a win
     * for Moriarty on the bomb, a win for Sherlock once every defusing cable
     * is cut, the end of the round after one cut per player, and otherwise
     * nothing. The target must hold a cable (the source unwraps the pop).
     */
    method Cut(cutting: PlayerId, cutted: PlayerId) returns (r: Result<(Cable, CutOutcome), CutError>)
      requires Valid()
      requires cutting == wireCutters && cutted != cutting ==>
        cutted in players && |players[cutted].cables| > 0
      modifies this
      ensures Valid()
      ensures r == Failure(DontHaveWireCutter) <==> cutting != old(wireCutters)
      ensures r == Failure(CannotSelfCut) <==> cutting == old(wireCutters) && cutted == cutting
      ensures r.Failure? <==> cutting != old(wireCutters) || cutted == cutting
      ensures r.Failure? ==> unchanged(this)
      ensures r.Success? ==>
        && cutted in old(players)
        && wireCutters == cutted
        && |players| == |old(players)|
        && r.value.0 in old(players[cutted].cables)
        && |Pool()| + 1 == |old(Pool())|
        && CutHands(old(players), players, order, cutted, r.value.0, false)
        && (r.value.0 == Defusing ==> old(defusingRemaining) > 0)
        && (defusingRemaining, cuttedCount, r.value.1) ==
           Tally(r.value.0, old(defusingRemaining), old(cuttedCount), |old(players)|)
    {
      if cutting != wireCutters {
        return Failure(DontHaveWireCutter);
      }
      if cutted == cutting {
        return Failure(CannotSelfCut);
      }
      ghost var before, holder := players, wireCutters;
      var cable := CutTarget(cutted);
      wireCutters := cutted;
      CutAccounts(before, players, order, holder, cutted, defusingRemaining, cuttedCount, cable);
      CutHandsOnce(before, players, order, cutted, cable);
      var t := Tally(cable, defusingRemaining, cuttedCount, |players|);
      defusingRemaining, cuttedCount := t.0, t.1;
      return Success((cable, t.2));
    }

    /** The target's `cut_cable` stored back in the map, with its effect on the two pools. */
    method CutTarget(cutted: PlayerId) returns (cable: Cable)
      requires Seated() && cutted in players && |players[cutted].cables| > 0
      modifies this`players
      ensures Seated() && players.Keys == old(players.Keys)
      ensures players == old(players)[cutted := players[cutted]]
      ensures multiset(old(players[cutted].cables)) == multiset(players[cutted].cables) + multiset{cable}
      ensures cable in old(players[cutted].cables)
      ensures CutOne(old(players[cutted]), players[cutted], cable)
      ensures multiset(Pool()) + multiset{cable} == multiset(old(Pool()))
      ensures |Pool()| + 1 == |old(Pool())| && |RevealedPool()| == |old(RevealedPool())| + 1
    {
      EnumeratesCovers(order, players.Keys);
      var target;
      target, cable := CutCable(players[cutted]);
      CutFromPools(players, order, cutted, target, cable);
      players := players[cutted := target];
    }

    /**
     * `next_round`: reset the round counter and pool every remaining cable.
     * With exactly one cable per player left the game is exhausted and the
     * hands stay as they are; otherwise the pool is dealt anew.
     */
    method NextRound() returns (exhausted: bool)
      requires Valid()
      modifies this`cuttedCount, this`players
      ensures Valid()
      ensures cuttedCount == 0
      ensures exhausted <==> |old(Pool())| == |players|
      ensures exhausted ==> players == old(players)
      ensures players.Keys == old(players.Keys)
      ensures forall id | id in players :: SameButHand(old(players[id]), players[id])
      ensures !exhausted ==> forall id | id in players ::
        |players[id].cables| == Quot(|old(Pool())|, |players|)
      ensures multiset(Pool()) <= multiset(old(Pool()))
      ensures Divides(|players|, |old(Pool())|) ==> multiset(Pool()) == multiset(old(Pool()))
      ensures old(RoundOver()) ==> Live()
    {
      ghost var before := players;
      ghost var over := RoundOver();
      cuttedCount := 0;
      var cables := Pool();
      if |cables| == |players| {
        return true;
      }
      DistributeCables(cables);
      if over {
        Redealt(before, players, order, wireCutters, defusingRemaining);
      }
      return false;
    }

    /**
     * The winner filter of `game_won`: the ids among `ids` whose player is on
     * `team`, in order.
     */
    function Winners(ids: seq<PlayerId>, team: Team): (w: seq<PlayerId>)
      requires forall i | 0 <= i < |ids| :: ids[i] in players
      reads this`players
      ensures forall id :: id in w <==> id in ids && players[id].team == team
      ensures |w| <= |ids|
    {
      if |ids| == 0 then []
      else
        var last := ids[|ids| - 1];
        Winners(ids[..|ids| - 1], team) + (if players[last].team == team then [last] else [])
    }

    /** Filtering a list without repetitions gives a list without repetitions. */
    lemma {:induction false} WinnersDistinct(ids: seq<PlayerId>, team: Team)
      requires forall i | 0 <= i < |ids| :: ids[i] in players
      requires NoDups(ids)
      ensures NoDups(Winners(ids, team))
    {
      if |ids| > 0 {
        var init, last := ids[..|ids| - 1], ids[|ids| - 1];
        assert Winners(ids, team) == Winners(init, team) + (if players[last].team == team then [last] else []);
        WinnersDistinct(init, team);
        if players[last].team == team {
          assert last !in init;
          NoDupsAppend(Winners(init, team), last);
        } else {
          assert Winners(ids, team) == Winners(init, team);
        }
      }
    }

    /**
     * The receiver-slot `take` of `/game/events` stored back in the map: it
     * fails, changing nothing, when a stream already holds the read end;
     * otherwise the player becomes connected and its queue is drained. The
     * cards, and so every invariant of the game, are untouched.
     */
    method AttachStream(id: PlayerId) returns (r: Option<Receiver>)
      requires Seated() && id in players
      modifies this`players
      ensures r == old(players[id].receiver)
      ensures r.None? ==> players == old(players)
      ensures id in players && players == old(players)[id := players[id]]
      ensures SameCards(old(players[id]), players[id]) && Connected(players[id])
      ensures r.Some? ==> players[id].queue == []
      ensures old(Valid()) ==> Valid()
      ensures old(Live()) ==> Live()
    {
      var q;
      q, r := Attach(players[id]);
      MailboxKeeps(players, players[id := q], order, wireCutters, defusingRemaining, cuttedCount);
      players := players[id := q];
    }

    /**
     * The `receiver.replace` of a dropped stream's guard stored back in the
     * map: the player is no longer connected, and nothing else changes.
     */
    method DetachStream(id: PlayerId)
      requires Seated() && id in players
      modifies this`players
      ensures players == old(players)[id := Detach(old(players[id]))]
      ensures !Connected(players[id])
      ensures old(Valid()) ==> Valid()
      ensures old(Live()) ==> Live()
    {
      MailboxKeeps(players, players[id := Detach(players[id])], order, wireCutters, defusingRemaining, cuttedCount);
      players := players[id := Detach(players[id])];
    }

    /** Some player of the game has a stream attached. */
    predicate AnyConnected()
      reads this`players
    {
      exists id | id in players :: Connected(players[id])
    }
  }
}
