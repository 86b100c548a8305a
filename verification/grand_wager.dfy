/** The game screen that feeds the wheel and the bet panel: the player's
    own stake in the round, their displayed chance, and when the panel is
    switched off. */
module GrandWager {
  import opened Common
  import opened Models
  import opened BetPanel
  import opened BetWheel

  /** The balance the panel shows when no player is known yet. */
  const FallbackBalance: real := 1000.0

  /** The bets one player has made, in arrival order. */
  function Filter(bets: seq<Bet>, id: Id): (r: seq<Bet>)
    ensures forall b :: b in r ==> b in bets && b.playerId == id
    ensures forall b :: b in bets && b.playerId == id ==> b in r
    decreases |bets|
  {
    if |bets| == 0 then []
    else
      var init := bets[..|bets| - 1];
      var last := bets[|bets| - 1];
      assert bets == init + [last];
      Filter(init, id) + (if last.playerId == id then [last] else [])
  }

  lemma {:induction false} FilterSum(bets: seq<Bet>, id: Id)
    ensures Sum(Filter(bets, id)) == PlayerTotal(bets, id)
    decreases |bets|
  {
    if |bets| > 0 {
      var init := bets[..|bets| - 1];
      var last := bets[|bets| - 1];
      FilterSum(init, id);
      assert PlayerTotal(bets, id) == PlayerTotal(init, id) + (if last.playerId == id then last.amount else 0);
      if last.playerId == id {
        assert Filter(bets, id) == Filter(init, id) + [last];
        SumAppend(Filter(init, id), last);
      } else {
        assert Filter(bets, id) == Filter(init, id) + [];
        assert Filter(init, id) + [] == Filter(init, id);
      }
    }
  }

  /** The player's own stake in the current round, zero when there is no
      round or no player. */
  function PlayerTotalBet(round: Option<Round>, player: Option<Player>): (t: nat)
    ensures round.None? || player.None? ==> t == 0
    ensures round.Some? && player.Some? ==> t == PlayerTotal(round.value.bets, player.value.id)
  {
    if round.None? || player.None? then 0
    else
      FilterSum(round.value.bets, player.value.id);
      Sum(Filter(round.value.bets, player.value.id))
  }

  lemma {:induction false} PlayerTotalAtMostSum(bets: seq<Bet>, id: Id)
    ensures PlayerTotal(bets, id) <= Sum(bets)
    decreases |bets|
  {
    if |bets| > 0 {
      PlayerTotalAtMostSum(bets[..|bets| - 1], id);
    }
  }

  /** The chance label: a fixed `0%` when there is no round, no player or
      an empty pool, otherwise the stake's share of the pool (before its
      rounding to one decimal). */
  datatype Chance = FixedZero | Share(percent: real)

  function PlayerChance(round: Option<Round>, player: Option<Player>): (c: Chance)
    ensures c.FixedZero? <==> round.None? || player.None? || round.value.totalPool == 0
    ensures c.Share? && round.value.totalPool > 0 && round.value.totalPool == Sum(round.value.bets) ==>
      0.0 <= c.percent <= 100.0
  {
    if round.None? || round.value.totalPool == 0 || player.None? then FixedZero
    else
      var total := PlayerTotalBet(round, player);
      PlayerTotalAtMostSum(round.value.bets, player.value.id);
      ShareBounded(total, round.value.totalPool, Sum(round.value.bets));
      Share(total as real / round.value.totalPool as real * 100.0)
  }

  /** A part of a positive whole is between none and all of it. */
  lemma ShareBounded(part: nat, pool: int, sum: nat)
    ensures 0 < pool && pool == sum && part <= sum ==> 0.0 <= part as real / pool as real * 100.0 <= 100.0
  {
    if 0 < pool && pool == sum && part <= sum {
      assert part as real / pool as real * pool as real == part as real;
      assert part as real / pool as real <= 1.0;
    }
  }

  /** The panel's chance equals the share the wheel shows for the same
      player; a player who has not bet is shown at zero. */
  lemma ChanceMatchesWheel(round: Round, player: Player)
    requires round.totalPool > 0
    ensures var c := PlayerChance(Some(round), Some(player));
      && c.Share?
      && (player.id !in Bettors(round.bets) ==> c.percent == 0.0)
      && forall e :: e in AggregatedBets(round.bets, round.totalPool as real) && e.playerId == player.id ==>
           c.percent == e.percent
  {
    if player.id !in Bettors(round.bets) {
      PlayerTotalAbsent(round.bets, player.id);
    }
  }

  /** The panel is off once the round is finished or a winner is shown. */
  predicate PanelDisabled(status: RoundStatus, winnerShown: bool) {
    status == Finished || winnerShown
  }

  /** The balance handed to the panel. */
  function PanelBalance(player: Option<Player>): real {
    if player.Some? then player.value.balance else FallbackBalance
  }

  /** The screen does not pass the room's bounds, so its place button uses
      the panel defaults: it is active exactly when the round is still open,
      no winner is shown, and the amount lies between 1 and 10000 and
      within the balance (1000 while no player is known). */
  lemma PlaceRuleOnScreen(status: RoundStatus, winnerShown: bool, player: Option<Player>, current: real)
    ensures PlaceEnabled(PanelDisabled(status, winnerShown), current, DefaultMinBet, EffectiveMaxBet(DefaultMaxBet, PanelBalance(player)))
      <==> && status != Finished && !winnerShown
           && 1.0 <= current <= 10000.0
           && current <= (if player.Some? then player.value.balance else 1000.0)
  {
    PlaceEnabledMeansAffordable(PanelDisabled(status, winnerShown), current, DefaultMinBet, DefaultMaxBet, PanelBalance(player));
  }
}
