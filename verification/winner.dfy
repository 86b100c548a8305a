/** The weighted draw that picks a round's winner, and the split of the
    pool into commission and payout. The random number is an input: the
    draw value `r` that the source obtains as `Math.random() * totalPool`. */
module Winner {
  import opened Common
  import opened Models

  /** Walks the bets from index `i` on, `cumulative` being the amount of
      the bets before `i`, and yields the first index whose running sum
      reaches `r`, or nothing when no running sum does. */
  function Scan(bets: seq<Bet>, r: real, i: nat, cumulative: nat): (k: Option<nat>)
    requires i <= |bets| && cumulative == Prefix(bets, i)
    ensures k.Some? ==> i <= k.value < |bets| && r <= Prefix(bets, k.value + 1) as real
    ensures k.Some? ==> forall j :: i <= j < k.value ==> (RunningSum(bets, j) as real) < r
    ensures k.None? ==> forall j :: i <= j < |bets| ==> (RunningSum(bets, j) as real) < r
    decreases |bets| - i
  {
    if i == |bets| then None
    else
      PrefixStep(bets, i);
      var c := cumulative + bets[i].amount;
      if r <= c as real then Some(i) else Scan(bets, r, i + 1, c)
  }

  /** The index of the winning bet: the first bet in arrival order whose
      running sum is at least `r`; the first bet when none is. */
  function SelectWinner(bets: seq<Bet>, r: real): (w: nat)
    requires |bets| > 0
    ensures w < |bets|
    ensures r <= Sum(bets) as real ==> r <= Prefix(bets, w + 1) as real
    ensures r <= Sum(bets) as real ==> forall j :: 0 <= j < w ==> (RunningSum(bets, j) as real) < r
  {
    match Scan(bets, r, 0, 0)
    case Some(k) => k
    case None =>
      PrefixAll(bets);
      assert RunningSum(bets, |bets| - 1) == Sum(bets);
      0
  }

  /** For a draw within the pool the scan always finds a bet, so the
      fallback to the first bet is never taken. */
  lemma FallbackUnreachable(bets: seq<Bet>, r: real)
    requires |bets| > 0 && r <= Sum(bets) as real
    ensures Scan(bets, r, 0, 0).Some?
  {
    PrefixAll(bets);
    assert RunningSum(bets, |bets| - 1) == Sum(bets);
  }

  /** For a draw in (0, total] the winning bet's interval holds the draw. */
  lemma WinnerInOwnInterval(bets: seq<Bet>, r: real)
    requires |bets| > 0 && 0.0 < r <= Sum(bets) as real
    ensures var w := SelectWinner(bets, r);
      (Prefix(bets, w) as real) < r <= Prefix(bets, w + 1) as real
  {
    var w := SelectWinner(bets, r);
    if w > 0 {
      assert RunningSum(bets, w - 1) == Prefix(bets, w);
    } else {
      assert bets[..0] == [];
    }
  }

  /** The bets' intervals do not overlap: a draw lies in at most one. */
  lemma IntervalsDisjoint(bets: seq<Bet>, r: real, i: nat, j: nat)
    requires i < |bets| && j < |bets|
    requires (Prefix(bets, i) as real) < r <= Prefix(bets, i + 1) as real
    requires (Prefix(bets, j) as real) < r <= Prefix(bets, j + 1) as real
    ensures i == j
  {
    if i < j {
      PrefixMonotone(bets, i + 1, j);
    } else if j < i {
      PrefixMonotone(bets, j + 1, i);
    }
  }

  /** Fairness of the draw: bet `i` wins exactly for the draws in the
      half-open interval (Prefix(i), Prefix(i + 1)], whose length is the
      bet's amount. */
  lemma WinnerInterval(bets: seq<Bet>, r: real, i: nat)
    requires i < |bets| && 0.0 < r <= Sum(bets) as real
    ensures SelectWinner(bets, r) == i <==> (Prefix(bets, i) as real) < r <= Prefix(bets, i + 1) as real
  {
    var w := SelectWinner(bets, r);
    WinnerInOwnInterval(bets, r);
    if (Prefix(bets, i) as real) < r <= Prefix(bets, i + 1) as real {
      IntervalsDisjoint(bets, r, w, i);
    }
  }

  /** A draw at the very top of the pool picks the last bet when that bet
      is positive: the comparison `<=` never misses the upper edge. */
  lemma UpperEdgeSelectsLast(bets: seq<Bet>)
    requires |bets| > 0 && bets[|bets| - 1].amount > 0
    ensures SelectWinner(bets, Sum(bets) as real) == |bets| - 1
  {
    var n := |bets| - 1;
    PrefixAll(bets);
    PrefixStep(bets, n);
    assert Prefix(bets, n) as real < Sum(bets) as real;
    WinnerInterval(bets, Sum(bets) as real, n);
  }

  /** The winner is always one of the bettors. */
  lemma WinnerIsBettor(bets: seq<Bet>, r: real)
    requires |bets| > 0
    ensures bets[SelectWinner(bets, r)].playerId in Bettors(bets)
  {
  }

  /** Commission and payout of a pool under a commission percentage. */
  datatype Split = Split(commission: real, winnerAmount: real)

  /** `commission = pool * pct / 100` and the winner receives the rest. */
  function SplitPool(pool: int, pct: real): (s: Split)
    ensures s.winnerAmount + s.commission == pool as real
    ensures 0.0 <= pct <= 100.0 && pool >= 0 ==> 0.0 <= s.commission <= pool as real && 0.0 <= s.winnerAmount <= pool as real
  {
    var commission := (pool as real * pct) / 100.0;
    Split(commission, pool as real - commission)
  }
}
