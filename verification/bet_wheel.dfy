/** The wheel on the client: the round's bets folded into one coloured
    segment per player, ordered by stake, and the countdown label. */
module BetWheel {
  import opened Models
  import opened Aggregation
  import opened Decimal

  /** The palette; the k-th distinct player takes colour k modulo ten. */
  const PlayerColors: seq<string> := [
    "#f0c020", "#4080e0", "#40c080", "#e05050", "#a040c0",
    "#40c0c0", "#e08040", "#c040a0", "#80c040", "#c0c040"
  ]

  function ColorOf(k: nat): string {
    PlayerColors[k % |PlayerColors|]
  }

  /** One segment of the wheel. */
  datatype WheelEntry = WheelEntry(playerId: Id, username: string, totalAmount: nat, percent: real, color: string)

  /** A player's share of the pool in percent; zero when the pool is empty. */
  function Percent(total: nat, totalPool: real): real {
    if totalPool > 0.0 then total as real / totalPool * 100.0 else 0.0
  }

  /** The position of a player's first bet, or past the end for strangers. */
  function Arrival(bets: seq<Bet>, id: Id): nat {
    if id in Bettors(bets) then FirstIndex(bets, id) else |bets|
  }

  /** What the wheel must show for a segment of this round. */
  predicate Describes(bets: seq<Bet>, totalPool: real, e: WheelEntry) {
    && e.playerId in Bettors(bets)
    && e.totalAmount == PlayerTotal(bets, e.playerId)
    && e.username == bets[FirstIndex(bets, e.playerId)].playerUsername
    && e.color == ColorOf(Rank(bets, e.playerId))
    && e.percent == Percent(e.totalAmount, totalPool)
  }

  /** The wheel's order: larger stakes first, equal stakes in order of
      arrival (the sort is stable over first-appearance order). */
  predicate Before(bets: seq<Bet>, a: WheelEntry, b: WheelEntry) {
    a.totalAmount > b.totalAmount
    || (a.totalAmount == b.totalAmount && Arrival(bets, a.playerId) < Arrival(bets, b.playerId))
  }

  predicate Ordered(bets: seq<Bet>, s: seq<WheelEntry>) {
    forall i, j :: 0 <= i < j < |s| ==> Before(bets, s[i], s[j])
  }

  function WheelTotal(s: seq<WheelEntry>): nat {
    if |s| == 0 then 0 else WheelTotal(s[..|s| - 1]) + s[|s| - 1].totalAmount
  }

  function PercentSum(s: seq<WheelEntry>): real {
    if |s| == 0 then 0.0 else PercentSum(s[..|s| - 1]) + s[|s| - 1].percent
  }

  /** The per-player lines, before sorting, with percent and colour. */
  function Decorate(t: seq<Tally>, totalPool: real): seq<WheelEntry> {
    seq(|t|, k requires 0 <= k < |t| =>
      WheelEntry(t[k].playerId, t[k].username, t[k].total, Percent(t[k].total, totalPool), ColorOf(k)))
  }

  lemma {:induction false} DecorateTotal(t: seq<Tally>, totalPool: real)
    ensures WheelTotal(Decorate(t, totalPool)) == TallySum(t)
  {
    if |t| > 0 {
      var d := Decorate(t, totalPool);
      var t' := t[..|t| - 1];
      assert d[..|d| - 1] == Decorate(t', totalPool);
      DecorateTotal(t', totalPool);
    }
  }

  lemma {:induction false} WheelTotalCons(e: WheelEntry, s: seq<WheelEntry>)
    ensures WheelTotal([e] + s) == e.totalAmount + WheelTotal(s)
  {
    if |s| > 0 {
      assert ([e] + s)[..|s|] == [e] + s[..|s| - 1];
      WheelTotalCons(e, s[..|s| - 1]);
    }
  }

  /** Insert an entry before the first one whose stake it reaches. */
  function Insert(bets: seq<Bet>, e: WheelEntry, t: seq<WheelEntry>): (r: seq<WheelEntry>)
    ensures |r| == |t| + 1
    ensures multiset(r) == multiset(t) + multiset{e}
    ensures WheelTotal(r) == WheelTotal(t) + e.totalAmount
  {
    if |t| == 0 then [e]
    else if t[0].totalAmount <= e.totalAmount then
      WheelTotalCons(e, t);
      [e] + t
    else
      assert t == [t[0]] + t[1..];
      var rest := Insert(bets, e, t[1..]);
      WheelTotalCons(t[0], t[1..]);
      WheelTotalCons(t[0], rest);
      [t[0]] + rest
  }

  /** Insertion sort by descending stake. */
  function SortByTotal(bets: seq<Bet>, s: seq<WheelEntry>): (r: seq<WheelEntry>)
    ensures |r| == |s|
    ensures multiset(r) == multiset(s)
    ensures WheelTotal(r) == WheelTotal(s)
  {
    if |s| == 0 then []
    else
      assert s == [s[0]] + s[1..];
      WheelTotalCons(s[0], s[1..]);
      Insert(bets, s[0], SortByTotal(bets, s[1..]))
  }

  /** Placing an entry in front of a list whose stakes it reaches, and
      which arrived after it, keeps the order. */
  lemma InsertFrontOrdered(bets: seq<Bet>, e: WheelEntry, t: seq<WheelEntry>)
    requires Ordered(bets, t) && |t| > 0 && t[0].totalAmount <= e.totalAmount
    requires forall x :: x in t ==> Arrival(bets, e.playerId) < Arrival(bets, x.playerId)
    ensures Ordered(bets, [e] + t)
  {
    var r := [e] + t;
    forall i, j | 0 <= i < j < |r| ensures Before(bets, r[i], r[j]) {
      if i == 0 {
        assert r[j] == t[j - 1] && r[j] in t;
        if j > 1 {
          assert Before(bets, t[0], t[j - 1]);
        }
      } else {
        assert Before(bets, t[i - 1], t[j - 1]);
      }
    }
  }

  /** Keeping a head with a larger stake than the inserted entry in front
      of an ordered tail keeps the order. */
  lemma InsertBehindOrdered(bets: seq<Bet>, e: WheelEntry, t: seq<WheelEntry>, rest: seq<WheelEntry>)
    requires Ordered(bets, t) && |t| > 0 && t[0].totalAmount > e.totalAmount
    requires Ordered(bets, rest) && multiset(rest) == multiset(t[1..]) + multiset{e}
    ensures Ordered(bets, [t[0]] + rest)
  {
    var r := [t[0]] + rest;
    forall i, j | 0 <= i < j < |r| ensures Before(bets, r[i], r[j]) {
      if i == 0 {
        assert r[j] in multiset(rest);
        if r[j] != e {
          assert r[j] in multiset(t[1..]);
          var m :| 0 <= m < |t[1..]| && t[1..][m] == r[j];
          assert Before(bets, t[0], t[m + 1]);
        }
      } else {
        assert r[i] == rest[i - 1] && r[j] == rest[j - 1];
      }
    }
  }

  lemma {:induction false} InsertOrdered(bets: seq<Bet>, e: WheelEntry, t: seq<WheelEntry>)
    requires Ordered(bets, t)
    requires forall x :: x in t ==> Arrival(bets, e.playerId) < Arrival(bets, x.playerId)
    ensures Ordered(bets, Insert(bets, e, t))
  {
    if |t| == 0 {
    } else if t[0].totalAmount <= e.totalAmount {
      InsertFrontOrdered(bets, e, t);
    } else {
      assert forall x :: x in t[1..] ==> x in t;
      InsertOrdered(bets, e, t[1..]);
      InsertBehindOrdered(bets, e, t, Insert(bets, e, t[1..]));
    }
  }

  lemma {:induction false} SortOrdered(bets: seq<Bet>, s: seq<WheelEntry>)
    requires forall i, j :: 0 <= i < j < |s| ==> Arrival(bets, s[i].playerId) < Arrival(bets, s[j].playerId)
    ensures Ordered(bets, SortByTotal(bets, s))
  {
    if |s| > 0 {
      var tail := s[1..];
      var sorted := SortByTotal(bets, tail);
      SortOrdered(bets, tail);
      forall x | x in sorted ensures Arrival(bets, s[0].playerId) < Arrival(bets, x.playerId) {
        assert x in multiset(tail);
        var m :| 0 <= m < |tail| && tail[m] == x;
        assert s[m + 1] == x;
      }
      InsertOrdered(bets, s[0], sorted);
    }
  }

  /** Every segment the unsorted lines describe is described correctly. */
  lemma DecorateDescribes(bets: seq<Bet>, totalPool: real)
    ensures forall e :: e in Decorate(Aggregate(bets), totalPool) ==> Describes(bets, totalPool, e)
    ensures forall i, j :: 0 <= i < j < |Decorate(Aggregate(bets), totalPool)| ==>
      Arrival(bets, Decorate(Aggregate(bets), totalPool)[i].playerId) < Arrival(bets, Decorate(Aggregate(bets), totalPool)[j].playerId)
  {
    var t := Aggregate(bets);
    var d := Decorate(t, totalPool);
    AggregateTotals(bets);
    AggregateUsernames(bets);
    AggregateRanks(bets);
    AggregateOrder(bets);
    forall e | e in d ensures Describes(bets, totalPool, e) {
      var k :| 0 <= k < |d| && d[k] == e;
      assert t[k] in t;
      assert t[k].playerId in Players(t);
    }
    forall i, j | 0 <= i < j < |d|
      ensures Arrival(bets, d[i].playerId) < Arrival(bets, d[j].playerId)
    {
      assert t[i] in t && t[j] in t;
      assert t[i].playerId in Players(t) && t[j].playerId in Players(t);
    }
  }

  lemma SortKeepsMembers(bets: seq<Bet>, d: seq<WheelEntry>)
    ensures forall e :: e in SortByTotal(bets, d) <==> e in d
  {
    var r := SortByTotal(bets, d);
    forall e ensures e in r <==> e in d {
      assert e in r <==> e in multiset(r);
      assert e in d <==> e in multiset(d);
    }
  }

  lemma DecorateCoversBettors(bets: seq<Bet>, totalPool: real)
    ensures (set e | e in Decorate(Aggregate(bets), totalPool) :: e.playerId) == Bettors(bets)
  {
    var t := Aggregate(bets);
    var d := Decorate(t, totalPool);
    forall id | id in Bettors(bets) ensures exists e :: e in d && e.playerId == id {
      assert id in Players(t);
      var k :| 0 <= k < |t| && t[k].playerId == id;
      assert d[k] in d;
    }
    forall e | e in d ensures e.playerId in Bettors(bets) {
      var k :| 0 <= k < |d| && d[k] == e;
      assert t[k] in t;
    }
  }

  /** The wheel's segments: one per bettor, each showing the player's
      total, first username, share and arrival colour, ordered by stake
      with ties in arrival order, together covering the whole pool. */
  function AggregatedBets(bets: seq<Bet>, totalPool: real): (r: seq<WheelEntry>)
    ensures |r| == |Bettors(bets)|
    ensures forall e :: e in r ==> Describes(bets, totalPool, e)
    ensures (set e | e in r :: e.playerId) == Bettors(bets)
    ensures Ordered(bets, r)
    ensures WheelTotal(r) == Sum(bets)
  {
    var t := Aggregate(bets);
    var d := Decorate(t, totalPool);
    DecorateDescribes(bets, totalPool);
    SortOrdered(bets, d);
    DecorateTotal(t, totalPool);
    AggregateSum(bets);
    var r := SortByTotal(bets, d);
    SortKeepsMembers(bets, d);
    DecorateCoversBettors(bets, totalPool);
    r
  }

  /** No player appears twice on the wheel. */
  lemma SegmentsDistinct(bets: seq<Bet>, totalPool: real)
    ensures var r := AggregatedBets(bets, totalPool);
      forall i, j :: 0 <= i < j < |r| ==> r[i].playerId != r[j].playerId
  {
    var r := AggregatedBets(bets, totalPool);
    forall i, j | 0 <= i < j < |r| ensures r[i].playerId != r[j].playerId {
      assert r[i] in r && r[j] in r;
      assert Before(bets, r[i], r[j]);
    }
  }

  /** An empty pool shows every player at zero percent. */
  lemma EmptyPoolShowsZero(bets: seq<Bet>)
    ensures forall e :: e in AggregatedBets(bets, 0.0) ==> e.percent == 0.0
  {
  }

  lemma {:induction false} PercentSumScales(s: seq<WheelEntry>, totalPool: real)
    requires totalPool > 0.0
    requires forall e :: e in s ==> e.percent == Percent(e.totalAmount, totalPool)
    ensures PercentSum(s) == WheelTotal(s) as real / totalPool * 100.0
  {
    if |s| > 0 {
      var init := s[..|s| - 1];
      var last := s[|s| - 1];
      assert forall e :: e in init ==> e in s;
      assert last in s;
      PercentSumScales(init, totalPool);
      ShareAdds(WheelTotal(init) as real, last.totalAmount as real, totalPool);
    }
  }

  lemma ShareAdds(a: real, b: real, p: real)
    requires p > 0.0
    ensures a / p * 100.0 + b / p * 100.0 == (a + b) / p * 100.0
  {
  }

  /** When the pool is the sum of the bets, the shares add up to a hundred. */
  lemma SharesAddUp(bets: seq<Bet>)
    requires Sum(bets) > 0
    ensures PercentSum(AggregatedBets(bets, Sum(bets) as real)) == 100.0
  {
    var pool := Sum(bets) as real;
    var r := AggregatedBets(bets, pool);
    forall e | e in r ensures e.percent == Percent(e.totalAmount, pool) {
      assert Describes(bets, pool, e);
    }
    PercentSumScales(r, pool);
    assert WheelTotal(r) as real == pool;
    WholeIsHundred(pool);
  }

  lemma WholeIsHundred(p: real)
    requires p > 0.0
    ensures p / p * 100.0 == 100.0
  {
  }

  /** The countdown: `m:ss` from one minute on, plain seconds below. */
  function FormatTime(ms: nat): (s: string)
    ensures |s| >= 1
  {
    var seconds := ms / 1000;
    var minutes := seconds / 60;
    var remainingSeconds := seconds % 60;
    if minutes > 0 then Show(minutes) + ":" + PadTwo(remainingSeconds) else Show(remainingSeconds)
  }

  /** Reading the countdown back gives the whole seconds remaining. */
  lemma FormatTimeReadsBack(ms: nat)
    ensures var s := FormatTime(ms);
      if ms >= 60000 then
        && |s| >= 4 && s[|s| - 3] == ':'
        && AllDigits(s[..|s| - 3]) && AllDigits(s[|s| - 2..])
        && Parse(s[|s| - 2..]) < 60
        && Parse(s[..|s| - 3]) * 60 + Parse(s[|s| - 2..]) == ms / 1000
      else AllDigits(s) && |s| <= 2 && Parse(s) == ms / 1000
  {
    var seconds := ms / 1000;
    ParseShow(seconds / 60);
    ParseShow(seconds % 60);
    if ms >= 60000 {
      var s := FormatTime(ms);
      var head := Show(seconds / 60);
      assert s == head + ":" + PadTwo(seconds % 60);
      assert s[..|s| - 3] == head;
      assert s[|s| - 2..] == PadTwo(seconds % 60);
    } else {
      assert seconds / 60 == 0;
      assert seconds < 10 ==> |Show(seconds)| == 1;
    }
  }
}
