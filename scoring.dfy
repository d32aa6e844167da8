/**
 * The counting rules of src/gameplay.rs `Game`: what one cut does to the two
 * counters and which outcome it reports, and the book-keeping those counters
 * keep against the cables still in the hands.
 */
module Scoring {
  import opened Gameplay
  import opened Dealing

  /**
   * The book-keeping of a game with `n` players, `shown` cables cut so far,
   * `pool` still in the hands and the two counters: `defusing` counts the
   * defusing cables in the hands, at most one bomb is left, the 5n cables
   * dealt are all accounted for, and while the bomb is in play the cables in
   * the hands plus those cut this round are a multiple of n.
   */
  ghost predicate Books(pool: seq<Cable>, shown: nat, n: nat, defusing: nat, cutted: nat) {
    && n > 0
    && defusing == multiset(pool)[Defusing]
    && multiset(pool)[Bomb] <= 1
    && |pool| + shown == 5 * n
    && (multiset(pool)[Bomb] == 1 ==> Divides(n, |pool| + cutted))
  }

  /**
   * The counters and outcome of one cut (the `match` of `Game::cut`): the
   * bomb wins for Moriarty at once and leaves the counters alone; any other
   * cable counts towards the round, a defusing one also towards Sherlock's
   * goal, and then the last defusing cable wins for Sherlock before the
   * n-th cut of the round ends it. A defusing cut needs a defusing cable
   * still owed (the source's `usize` decrement would underflow).
   */
  function Tally(c: Cable, defusing: nat, cutted: nat, n: nat): (t: (nat, nat, CutOutcome))
    requires c == Defusing ==> defusing > 0
    ensures t.0 + (if c == Defusing then 1 else 0) == defusing
    ensures t.1 == cutted + (if c == Bomb then 0 else 1)
    ensures t.2 == CutOutcome.Win(Moriarty) <==> c == Bomb
    ensures t.2 == CutOutcome.Win(Sherlock) <==> c != Bomb && t.0 == 0
    ensures t.2 == RoundEnd <==> c != Bomb && t.0 > 0 && t.1 == n
    ensures t.2 == Nothing <==> c != Bomb && t.0 > 0 && t.1 != n
  {
    match c
    case Bomb => (defusing, cutted, CutOutcome.Win(Moriarty))
    case Safe => Settle(defusing, cutted + 1, n)
    case Defusing => Settle(defusing - 1, cutted + 1, n)
  }

  function Settle(defusing: nat, cutted: nat, n: nat): (nat, nat, CutOutcome) {
    if defusing == 0 then (defusing, cutted, CutOutcome.Win(Sherlock))
    else if cutted == n then (defusing, cutted, RoundEnd)
    else (defusing, cutted, Nothing)
  }

  /** A cut cable leaves the hands: a defusing one was owed, and the count stays covered. */
  lemma CutKeepsCount(pool: seq<Cable>, pool': seq<Cable>, defusing: nat, c: Cable)
    requires multiset(pool') + multiset{c} == multiset(pool)
    requires multiset(pool)[Defusing] <= defusing
    ensures c == Defusing ==> defusing > 0
    ensures multiset(pool')[Defusing] + (if c == Defusing then 1 else 0) <= defusing
  {
    assert multiset(pool)[c] == multiset(pool')[c] + 1;
  }

  /**
   * One cut keeps the books: the cable leaves the hands and joins the cut
   * ones. While the bomb stays in play, a cut that ends nothing keeps the
   * round open, and a cut that ends the round leaves a whole number of
   * cables per player.
   */
  lemma {:induction false} TallyKeepsBooks(pool: seq<Cable>, pool': seq<Cable>, shown: nat, n: nat,
                                           defusing: nat, cutted: nat, c: Cable)
    requires Books(pool, shown, n, defusing, cutted)
    requires multiset(pool') + multiset{c} == multiset(pool) && |pool'| + 1 == |pool|
    ensures c == Defusing ==> defusing > 0
    ensures var t := Tally(c, defusing, cutted, n);
      && Books(pool', shown + 1, n, t.0, t.1)
      && (multiset(pool)[Bomb] == 1 && t.2 != CutOutcome.Win(Moriarty) ==> multiset(pool')[Bomb] == 1)
      && (cutted < n && t.2 == Nothing ==> t.1 < n)
      && (multiset(pool)[Bomb] == 1 && t.2 == RoundEnd ==> Divides(n, |pool'|))
  {
    assert multiset(pool)[c] == multiset(pool')[c] + 1;
    assert c != Bomb ==> multiset(pool')[Bomb] == multiset(pool)[Bomb];
    assert c != Defusing ==> multiset(pool')[Defusing] == multiset(pool)[Defusing];
    var t := Tally(c, defusing, cutted, n);
    if multiset(pool)[Bomb] == 1 && t.2 == RoundEnd {
      assert |pool| + cutted == |pool'| + n;
      DividesShift(n, |pool'|);
    }
  }

  /**
   * A fresh deal of the whole pool balances the books: nothing cut yet,
   * every defusing cable owed, the bomb in play and five cables per player.
   */
  lemma FreshBooks(pool: seq<Cable>, n: nat)
    requires 4 <= n <= 8 && multiset(pool) == multiset(CablePool(n))
    ensures Books(pool, 0, n, n, 0) && multiset(pool)[Bomb] == 1
  {
    CablePoolContents(n);
    assert |pool| == |multiset(pool)| == 5 * n;
    DividesShift(n, 0);
    DividesShift(n, n);
    DividesShift(n, n + n);
    DividesShift(n, n + n + n);
    DividesShift(n, n + n + n + n);
  }

  /** The initial pool splits into hands of five with nothing left over. */
  lemma DealFive(n: nat)
    requires 4 <= n <= 8
    ensures Quot(|CablePool(n)|, n) == 5 && Divides(n, |CablePool(n)|)
  {
    FiveEach(n);
    QuotRem(|CablePool(n)|, n);
  }
}
