/**
 * The cables of a game's players pooled in iteration order: the hands still
 * held (the `values_mut().flat_map(cables)` of src/gameplay.rs
 * `next_round`) or the cables cut so far.
 */
module Pools {
  import opened Gameplay
  import opened Dealing
  import opened PlayingPlayers

  /** The hand of a player, or the cables cut from it when `shown`. */
  function Pick(p: Player, shown: bool): seq<Cable> {
    if shown then p.revealedCables else p.cables
  }

  /** The picked cables of `ids`, concatenated in that order. */
  function Gather(ps: map<PlayerId, Player>, ids: seq<PlayerId>, shown: bool): seq<Cable>
    requires forall i | 0 <= i < |ids| :: ids[i] in ps
  {
    if |ids| == 0 then [] else Gather(ps, ids[..|ids| - 1], shown) + Pick(ps[ids[|ids| - 1]], shown)
  }

  /**
   * Replacing one player that the order lists once changes the pool by
   * exactly that player's cables: the old ones leave, the new ones join.
   */
  lemma {:induction false} GatherUpdate(ps: map<PlayerId, Player>, ids: seq<PlayerId>, k: PlayerId, p: Player, shown: bool)
    requires forall i | 0 <= i < |ids| :: ids[i] in ps
    requires k in ids && NoDups(ids)
    ensures multiset(Gather(ps[k := p], ids, shown)) + multiset(Pick(ps[k], shown))
         == multiset(Gather(ps, ids, shown)) + multiset(Pick(p, shown))
  {
    var init, last := ids[..|ids| - 1], ids[|ids| - 1];
    assert forall i | 0 <= i < |init| :: init[i] == ids[i];
    if last == k {
      GatherOutside(ps[k := p], ps, init, shown);
    } else {
      GatherUpdate(ps, init, k, p, shown);
      assert ps[k := p][last] == ps[last];
      ShiftBoth(multiset(Gather(ps[k := p], init, shown)), multiset(Gather(ps, init, shown)),
                multiset(Pick(ps[k], shown)), multiset(Pick(p, shown)), multiset(Pick(ps[last], shown)));
    }
  }

  /** Adding the same cables to both sides of a balance keeps it. */
  lemma ShiftBoth(a': multiset<Cable>, a: multiset<Cable>, x: multiset<Cable>, y: multiset<Cable>, mid: multiset<Cable>)
    requires a' + x == a + y
    ensures (a' + mid) + x == (a + mid) + y
  {
    assert (a' + mid) + x == (a' + x) + mid;
  }

  /** Two player maps that agree on the listed players' cables pool the same. */
  lemma {:induction false} GatherOutside(ps: map<PlayerId, Player>, ps': map<PlayerId, Player>, ids: seq<PlayerId>, shown: bool)
    requires forall i | 0 <= i < |ids| :: ids[i] in ps && ids[i] in ps' && Pick(ps[ids[i]], shown) == Pick(ps'[ids[i]], shown)
    ensures Gather(ps, ids, shown) == Gather(ps', ids, shown)
  {
    if |ids| > 0 {
      GatherOutside(ps, ps', ids[..|ids| - 1], shown);
    }
  }

  /** Players without picked cables pool nothing. */
  lemma {:induction false} GatherEmpty(ps: map<PlayerId, Player>, ids: seq<PlayerId>, shown: bool)
    requires forall i | 0 <= i < |ids| :: ids[i] in ps && Pick(ps[ids[i]], shown) == []
    ensures Gather(ps, ids, shown) == []
  {
    if |ids| > 0 {
      GatherEmpty(ps, ids[..|ids| - 1], shown);
    }
  }

  /** Pooling the hands of the listed players joins them in that order. */
  lemma {:induction false} GatherConcat(ps: map<PlayerId, Player>, ids: seq<PlayerId>, hands: seq<seq<Cable>>)
    requires |hands| == |ids|
    requires forall j | 0 <= j < |ids| :: ids[j] in ps && ps[ids[j]].cables == hands[j]
    ensures Gather(ps, ids, false) == Concat(hands)
  {
    if |ids| > 0 {
      GatherConcat(ps, ids[..|ids| - 1], hands[..|hands| - 1]);
    }
  }

  /**
   * Cutting one cable from a listed player removes it from the pool of hands
   * and adds one to the pool of cut cables.
   */
  lemma CutFromPools(ps: map<PlayerId, Player>, ids: seq<PlayerId>, k: PlayerId, p: Player, c: Cable)
    requires forall i | 0 <= i < |ids| :: ids[i] in ps
    requires k in ids && NoDups(ids)
    requires multiset(ps[k].cables) == multiset(p.cables) + multiset{c}
    requires p.revealedCables == ps[k].revealedCables + [c]
    ensures multiset(Gather(ps[k := p], ids, false)) + multiset{c} == multiset(Gather(ps, ids, false))
    ensures |Gather(ps[k := p], ids, false)| + 1 == |Gather(ps, ids, false)|
    ensures |Gather(ps[k := p], ids, true)| == |Gather(ps, ids, true)| + 1
  {
    GatherUpdate(ps, ids, k, p, false);
    CancelOne(multiset(Gather(ps[k := p], ids, false)), multiset(Gather(ps, ids, false)), multiset(p.cables), c);
    assert |multiset(Gather(ps[k := p], ids, false))| + 1 == |multiset(Gather(ps, ids, false))|;
    GatherUpdate(ps, ids, k, p, true);
    assert |multiset(Gather(ps[k := p], ids, true)) + multiset(ps[k].revealedCables)|
        == |multiset(Gather(ps, ids, true)) + multiset(p.revealedCables)|;
  }

  /** What balances a hand plus `c` on one side and that hand on the other differs by `c`. */
  lemma CancelOne(a: multiset<Cable>, b: multiset<Cable>, x: multiset<Cable>, c: Cable)
    requires a + (x + multiset{c}) == b + x
    ensures a + multiset{c} == b
  {
    assert (a + multiset{c}) + x == b + x;
    assert a + multiset{c} == ((a + multiset{c}) + x) - x;
  }
}
