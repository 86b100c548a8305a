/** The persisted entities of the game: rooms (with the constraints their
    database schema enforces on every save), rounds, bets and players. */
module Models {
  import opened Common

  type Id = string

  datatype RoomType = Public | Private

  datatype RoomStatus = RoomWaiting | RoomActive | RoomClosed

  /** A betting room. `roundDurationMs` is optional because a document may
      be built without it; the schema then refuses to store it. */
  datatype Room = Room(
    id: Id,
    name: string,
    maxPlayers: int,
    minBet: int,
    maxBet: int,
    roundDurationMs: Option<int>,
    kind: RoomType,
    inviteCode: Option<string>,
    creatorId: Id,
    playerIds: seq<Id>,
    currentRoundId: Option<Id>,
    status: RoomStatus)

  /** The status a room document receives when none is given. */
  const DefaultRoomStatus: RoomStatus := RoomWaiting

  /** The room schema's validators: required strings are non-empty,
      `2 <= maxPlayers <= 100`, `minBet >= 1`, `maxBet` present (always so
      here), `roundDurationMs` present and at least ten seconds. `type` and
      `status` range over their enumerations by construction. No ordering
      between `minBet` and `maxBet` is required. */
  predicate ValidRoom(room: Room) {
    && room.id != ""
    && room.name != ""
    && 2 <= room.maxPlayers <= 100
    && room.minBet >= 1
    && room.roundDurationMs.Some? && room.roundDurationMs.value >= 10000
    && room.creatorId != ""
  }

  datatype RoundStatus = Waiting | Active | Finished

  /** One accepted bet; its position in the round's list is its arrival
      order. */
  datatype Bet = Bet(playerId: Id, playerUsername: string, amount: nat)

  /** What a finished round with bets records about its winner. */
  datatype Payout = Payout(winnerId: Id, winnerUsername: string, winnerAmount: real, commission: real)

  datatype Round = Round(
    id: Id,
    startTime: Option<int>,
    endTime: Option<int>,
    bets: seq<Bet>,
    totalPool: int,
    payout: Option<Payout>,
    status: RoundStatus)

  datatype Player = Player(id: Id, username: string, balance: real)

  /** The sum of the bet amounts, accumulated in arrival order. */
  function Sum(bets: seq<Bet>): nat
    decreases |bets|
  {
    if |bets| == 0 then 0 else Sum(bets[..|bets| - 1]) + bets[|bets| - 1].amount
  }

  /** The amount accumulated over the first `i` bets. */
  function Prefix(bets: seq<Bet>, i: nat): nat
    requires i <= |bets|
  {
    Sum(bets[..i])
  }

  /** The running sum right after bet `j`: the amount of bets `0..j`. */
  function RunningSum(bets: seq<Bet>, j: nat): nat
    requires j < |bets|
  {
    Prefix(bets, j + 1)
  }

  /** The distinct ids of the players who have bet. */
  function Bettors(bets: seq<Bet>): set<Id> {
    set b | b in bets :: b.playerId
  }

  /** The sum of the amounts that one player has bet. */
  function PlayerTotal(bets: seq<Bet>, id: Id): nat
    decreases |bets|
  {
    if |bets| == 0 then 0
    else PlayerTotal(bets[..|bets| - 1], id) + (if bets[|bets| - 1].playerId == id then bets[|bets| - 1].amount else 0)
  }

  lemma SumAppend(bets: seq<Bet>, b: Bet)
    ensures Sum(bets + [b]) == Sum(bets) + b.amount
  {
    assert (bets + [b])[..|bets|] == bets;
  }

  lemma PrefixStep(bets: seq<Bet>, i: nat)
    requires i < |bets|
    ensures Prefix(bets, i + 1) == Prefix(bets, i) + bets[i].amount
  {
    assert bets[..i + 1][..i] == bets[..i];
  }

  lemma {:induction false} PrefixMonotone(bets: seq<Bet>, i: nat, j: nat)
    requires i <= j <= |bets|
    ensures Prefix(bets, i) <= Prefix(bets, j)
    decreases j - i
  {
    if i < j {
      PrefixStep(bets, j - 1);
      PrefixMonotone(bets, i, j - 1);
    }
  }

  lemma PrefixAll(bets: seq<Bet>)
    ensures Prefix(bets, |bets|) == Sum(bets)
  {
    assert bets[..|bets|] == bets;
  }

  lemma PlayerTotalAppend(bets: seq<Bet>, b: Bet, id: Id)
    ensures PlayerTotal(bets + [b], id) == PlayerTotal(bets, id) + (if b.playerId == id then b.amount else 0)
  {
    assert (bets + [b])[..|bets|] == bets;
  }

  lemma BettorsAppend(bets: seq<Bet>, b: Bet)
    ensures Bettors(bets + [b]) == Bettors(bets) + {b.playerId}
  {
    assert forall x :: x in bets + [b] <==> x in bets || x == b;
  }

  /** A player who never bet has a zero total. */
  lemma {:induction false} PlayerTotalAbsent(bets: seq<Bet>, id: Id)
    requires id !in Bettors(bets)
    ensures PlayerTotal(bets, id) == 0
    decreases |bets|
  {
    if |bets| > 0 {
      var init := bets[..|bets| - 1];
      assert bets == init + [bets[|bets| - 1]];
      BettorsAppend(init, bets[|bets| - 1]);
      PlayerTotalAbsent(init, id);
    }
  }
}
