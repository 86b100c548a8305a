/** Grouping of a round's bets by player, in order of each player's first
    bet: the loop shared by the server's list of betting players and the
    wheel legend on the client. */
module Aggregation {
  import opened Common
  import opened Models

  /** One player's line: id, the username of their first bet, and the sum
      of their bets. */
  datatype Tally = Tally(playerId: Id, username: string, total: nat)

  /** The position of the first bet placed by `id`. */
  function FirstIndex(bets: seq<Bet>, id: Id): (k: nat)
    requires id in Bettors(bets)
    ensures k < |bets| && bets[k].playerId == id
    ensures forall j :: 0 <= j < k ==> bets[j].playerId != id
    decreases |bets|
  {
    if bets[0].playerId == id then 0
    else
      assert id in Bettors(bets[1..]) by {
        var b :| b in bets && b.playerId == id;
        var i :| 0 <= i < |bets| && bets[i] == b;
        assert bets[1..][i - 1] == b;
      }
      1 + FirstIndex(bets[1..], id)
  }

  /** The number of distinct players who bet before `id`'s first bet: the
      position `id` takes among the players in order of appearance. */
  function Rank(bets: seq<Bet>, id: Id): nat
    requires id in Bettors(bets)
  {
    |Bettors(bets[..FirstIndex(bets, id)])|
  }

  lemma FirstIndexUnique(bets: seq<Bet>, id: Id, k: nat)
    requires k < |bets| && bets[k].playerId == id
    requires forall j :: 0 <= j < k ==> bets[j].playerId != id
    ensures id in Bettors(bets) && FirstIndex(bets, id) == k
  {
    assert bets[k] in bets;
  }

  /** The first bet of a player is unchanged by a later bet. */
  lemma FirstIndexAppend(bets: seq<Bet>, b: Bet, id: Id)
    requires id in Bettors(bets)
    ensures id in Bettors(bets + [b]) && FirstIndex(bets + [b], id) == FirstIndex(bets, id)
  {
    var k := FirstIndex(bets, id);
    FirstIndexUnique(bets + [b], id, k);
  }

  /** The position of the line for `id`, if there is one. */
  function Find(t: seq<Tally>, id: Id): (k: Option<nat>)
    ensures k.Some? ==> k.value < |t| && t[k.value].playerId == id
    ensures k.None? ==> forall j :: 0 <= j < |t| ==> t[j].playerId != id
  {
    if |t| == 0 then None
    else if t[|t| - 1].playerId == id then Some(|t| - 1)
    else Find(t[..|t| - 1], id)
  }

  /** Accounts for one more bet: the player's line grows by the amount, or
      a new line is opened at the end. */
  function AddBet(t: seq<Tally>, b: Bet): seq<Tally> {
    match Find(t, b.playerId)
    case Some(k) => t[k := t[k].(total := t[k].total + b.amount)]
    case None => t + [Tally(b.playerId, b.playerUsername, b.amount)]
  }

  /** No player has two lines. */
  predicate DistinctPlayers(t: seq<Tally>) {
    forall i, j :: 0 <= i < j < |t| ==> t[i].playerId != t[j].playerId
  }

  /** The players that have a line. */
  function Players(t: seq<Tally>): set<Id> {
    set e | e in t :: e.playerId
  }

  /** Accounting for one more bet keeps one line per distinct bettor. */
  lemma AddBetKeepsLines(t0: seq<Tally>, bets: seq<Bet>, b: Bet)
    requires DistinctPlayers(t0) && Players(t0) == Bettors(bets) && |t0| == |Bettors(bets)|
    ensures DistinctPlayers(AddBet(t0, b))
    ensures Players(AddBet(t0, b)) == Bettors(bets + [b])
    ensures |AddBet(t0, b)| == |Bettors(bets + [b])|
  {
    BettorsAppend(bets, b);
    var t := AddBet(t0, b);
    match Find(t0, b.playerId)
    case Some(k) =>
      assert t0[k] in t0;
      assert Bettors(bets + [b]) == Bettors(bets);
      forall e | e in t ensures e.playerId in Players(t0) {
        var i :| 0 <= i < |t| && t[i] == e;
        assert t0[i] in t0;
      }
      forall e | e in t0 ensures e.playerId in Players(t) {
        var i :| 0 <= i < |t0| && t0[i] == e;
        assert t[i] in t;
      }
    case None =>
      assert b.playerId !in Players(t0);
      var e := Tally(b.playerId, b.playerUsername, b.amount);
      assert t == t0 + [e];
      forall x | x in t ensures x in t0 || x == e { }
      assert Players(t) == Players(t0) + {b.playerId};
  }

  /** The lines of the bets processed in arrival order. There is exactly one
      line per distinct bettor. */
  function Aggregate(bets: seq<Bet>): (t: seq<Tally>)
    ensures DistinctPlayers(t)
    ensures Players(t) == Bettors(bets)
    ensures |t| == |Bettors(bets)|
    decreases |bets|
  {
    if |bets| == 0 then []
    else
      var init := bets[..|bets| - 1];
      var b := bets[|bets| - 1];
      assert bets == init + [b];
      AddBetKeepsLines(Aggregate(init), init, b);
      AddBet(Aggregate(init), b)
  }

  /** The sum of the lines' totals. */
  function TallySum(t: seq<Tally>): nat
    decreases |t|
  {
    if |t| == 0 then 0 else TallySum(t[..|t| - 1]) + t[|t| - 1].total
  }

  lemma {:induction false} TallySumUpdate(t: seq<Tally>, k: nat, e: Tally)
    requires k < |t|
    ensures TallySum(t[k := e]) == TallySum(t) - t[k].total + e.total
    decreases |t|
  {
    var n := |t| - 1;
    if k < n {
      assert t[k := e][..n] == t[..n][k := e];
      TallySumUpdate(t[..n], k, e);
    } else {
      assert t[k := e][..n] == t[..n];
    }
  }

  /** How one more bet changes the lines: existing lines keep their player
      and username and only the bettor's own line grows; otherwise exactly
      one line, for a new player, is appended. */
  lemma AddBetShape(t0: seq<Tally>, b: Bet)
    requires DistinctPlayers(t0)
    ensures |AddBet(t0, b)| == |t0| || |AddBet(t0, b)| == |t0| + 1
    ensures forall k :: 0 <= k < |t0| ==>
      && AddBet(t0, b)[k].playerId == t0[k].playerId
      && AddBet(t0, b)[k].username == t0[k].username
      && AddBet(t0, b)[k].total == t0[k].total + (if t0[k].playerId == b.playerId then b.amount else 0)
    ensures |AddBet(t0, b)| == |t0| + 1 ==>
      && AddBet(t0, b)[|t0|] == Tally(b.playerId, b.playerUsername, b.amount)
      && forall k :: 0 <= k < |t0| ==> t0[k].playerId != b.playerId
  {
  }

  /** A line for a player who is already a bettor stays at the same place. */
  lemma AggregateAppendOld(init: seq<Bet>, b: Bet, k: nat)
    requires k < |Aggregate(init)|
    ensures k < |Aggregate(init + [b])|
    ensures Aggregate(init + [b])[k].playerId == Aggregate(init)[k].playerId
    ensures Aggregate(init + [b])[k].username == Aggregate(init)[k].username
    ensures Aggregate(init)[k].playerId in Bettors(init)
  {
    var bets := init + [b];
    assert bets[..|bets| - 1] == init;
    AddBetShape(Aggregate(init), b);
    assert Aggregate(init)[k] in Aggregate(init);
  }

  /** A line appended for a bet is that bettor's first. */
  lemma AggregateAppendNew(init: seq<Bet>, b: Bet, k: nat)
    requires |Aggregate(init)| <= k < |Aggregate(init + [b])|
    ensures k == |Aggregate(init)| == |Bettors(init)|
    ensures Aggregate(init + [b])[k] == Tally(b.playerId, b.playerUsername, b.amount)
    ensures b.playerId !in Bettors(init)
  {
    var bets := init + [b];
    assert bets[..|bets| - 1] == init;
    var t0 := Aggregate(init);
    AddBetShape(t0, b);
    forall e | e in t0 ensures e.playerId != b.playerId {
      var i :| 0 <= i < |t0| && t0[i] == e;
    }
  }

  /** Each line carries the sum of its player's bets. */
  lemma {:induction false} AggregateTotals(bets: seq<Bet>)
    ensures forall k :: 0 <= k < |Aggregate(bets)| ==>
      Aggregate(bets)[k].total == PlayerTotal(bets, Aggregate(bets)[k].playerId)
    decreases |bets|
  {
    if |bets| > 0 {
      var init := bets[..|bets| - 1];
      var b := bets[|bets| - 1];
      assert bets == init + [b];
      AggregateTotals(init);
      var t0 := Aggregate(init);
      AddBetShape(t0, b);
      forall k | 0 <= k < |Aggregate(bets)|
        ensures Aggregate(bets)[k].total == PlayerTotal(bets, Aggregate(bets)[k].playerId)
      {
        PlayerTotalAppend(init, b, Aggregate(bets)[k].playerId);
        if k == |t0| {
          AggregateAppendNew(init, b, k);
          PlayerTotalAbsent(init, b.playerId);
        }
      }
    }
  }

  /** A bettor's first bet, seen in a longer sequence, is the same bet. */
  lemma FirstBetStable(init: seq<Bet>, b: Bet, id: Id)
    requires id in Bettors(init)
    ensures id in Bettors(init + [b])
    ensures FirstIndex(init + [b], id) == FirstIndex(init, id)
    ensures (init + [b])[..FirstIndex(init, id)] == init[..FirstIndex(init, id)]
    ensures (init + [b])[FirstIndex(init, id)] == init[FirstIndex(init, id)]
  {
    FirstIndexAppend(init, b, id);
  }

  /** A new bettor's first bet is the one just appended. */
  lemma FirstBetNew(init: seq<Bet>, b: Bet)
    requires b.playerId !in Bettors(init)
    ensures b.playerId in Bettors(init + [b])
    ensures FirstIndex(init + [b], b.playerId) == |init|
    ensures (init + [b])[..|init|] == init
  {
    var bets := init + [b];
    forall j | 0 <= j < |init| ensures bets[j].playerId != b.playerId {
      assert bets[j] == init[j] && init[j] in init;
    }
    FirstIndexUnique(bets, b.playerId, |init|);
  }

  /** Each line shows the username of its player's first bet. */
  lemma {:induction false} AggregateUsernames(bets: seq<Bet>)
    ensures forall k :: 0 <= k < |Aggregate(bets)| ==>
      Aggregate(bets)[k].username == bets[FirstIndex(bets, Aggregate(bets)[k].playerId)].playerUsername
    decreases |bets|
  {
    if |bets| > 0 {
      var init := bets[..|bets| - 1];
      var b := bets[|bets| - 1];
      assert bets == init + [b];
      AggregateUsernames(init);
      forall k | 0 <= k < |Aggregate(bets)|
        ensures Aggregate(bets)[k].username == bets[FirstIndex(bets, Aggregate(bets)[k].playerId)].playerUsername
      {
        if k < |Aggregate(init)| {
          AggregateAppendOld(init, b, k);
          FirstBetStable(init, b, Aggregate(init)[k].playerId);
        } else {
          AggregateAppendNew(init, b, k);
          FirstBetNew(init, b);
        }
      }
    }
  }

  /** The line of a player sits at the player's rank in order of first
      bet; hence the lines are in order of first bet. */
  lemma {:induction false} AggregateRanks(bets: seq<Bet>)
    ensures forall k :: 0 <= k < |Aggregate(bets)| ==> k == Rank(bets, Aggregate(bets)[k].playerId)
    decreases |bets|
  {
    if |bets| > 0 {
      var init := bets[..|bets| - 1];
      var b := bets[|bets| - 1];
      assert bets == init + [b];
      AggregateRanks(init);
      forall k | 0 <= k < |Aggregate(bets)|
        ensures k == Rank(bets, Aggregate(bets)[k].playerId)
      {
        if k < |Aggregate(init)| {
          AggregateAppendOld(init, b, k);
          FirstBetStable(init, b, Aggregate(init)[k].playerId);
        } else {
          AggregateAppendNew(init, b, k);
          FirstBetNew(init, b);
        }
      }
    }
  }

  /** Two lines of the longer sequence keep the order of first bets when
      the shorter one does. */
  lemma AggregateOrderStep(init: seq<Bet>, b: Bet, i: nat, j: nat)
    requires i < j < |Aggregate(init + [b])|
    requires j < |Aggregate(init)| ==>
      FirstIndex(init, Aggregate(init)[i].playerId) < FirstIndex(init, Aggregate(init)[j].playerId)
    ensures FirstIndex(init + [b], Aggregate(init + [b])[i].playerId) < FirstIndex(init + [b], Aggregate(init + [b])[j].playerId)
  {
    AggregateAppendOld(init, b, i);
    FirstBetStable(init, b, Aggregate(init)[i].playerId);
    if j < |Aggregate(init)| {
      AggregateAppendOld(init, b, j);
      FirstBetStable(init, b, Aggregate(init)[j].playerId);
    } else {
      AggregateAppendNew(init, b, j);
      FirstBetNew(init, b);
    }
  }

  /** Lines appear in the order of their players' first bets. */
  lemma {:induction false} AggregateOrder(bets: seq<Bet>)
    ensures forall i, j :: 0 <= i < j < |Aggregate(bets)| ==>
      FirstIndex(bets, Aggregate(bets)[i].playerId) < FirstIndex(bets, Aggregate(bets)[j].playerId)
    decreases |bets|
  {
    if |bets| > 0 {
      var init := bets[..|bets| - 1];
      var b := bets[|bets| - 1];
      assert bets == init + [b];
      AggregateOrder(init);
      forall i, j | 0 <= i < j < |Aggregate(bets)|
        ensures FirstIndex(bets, Aggregate(bets)[i].playerId) < FirstIndex(bets, Aggregate(bets)[j].playerId)
      {
        AggregateOrderStep(init, b, i, j);
      }
    }
  }

  /** Accounting for a bet adds its amount to the lines' total. */
  lemma AddBetSum(t: seq<Tally>, b: Bet)
    ensures TallySum(AddBet(t, b)) == TallySum(t) + b.amount
  {
    match Find(t, b.playerId)
    case Some(k) =>
      TallySumUpdate(t, k, t[k].(total := t[k].total + b.amount));
    case None =>
      assert (t + [Tally(b.playerId, b.playerUsername, b.amount)])[..|t|] == t;
  }

  /** The lines' totals add up to the sum of all bets. */
  lemma {:induction false} AggregateSum(bets: seq<Bet>)
    ensures TallySum(Aggregate(bets)) == Sum(bets)
    decreases |bets|
  {
    if |bets| > 0 {
      var init := bets[..|bets| - 1];
      var b := bets[|bets| - 1];
      AggregateSum(init);
      AddBetSum(Aggregate(init), b);
      assert Aggregate(bets) == AddBet(Aggregate(init), b);
    }
  }
}
