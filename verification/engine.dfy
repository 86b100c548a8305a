/** The round engine as a state machine driven by events: the service
    calls clients make, and the two timers (a round's deadline and the
    delayed creation of the next waiting round) as explicit events. The
    invariant below holds in every reachable state. */
module Engine {
  import opened Common
  import opened Models
  import opened Winner
  import opened RoomService

  /** Commission percentages that make sense: the winner never gets a
      negative amount and the house never pays in. */
  predicate ConfigOk(cfg: Config) {
    0.0 <= cfg.casinoCommissionPercent <= 100.0
  }

  /** A stored room satisfies its schema, lists each member once and never
      holds more members than its capacity. */
  predicate RoomOk(room: Room) {
    && ValidRoom(room)
    && NoDup(room.playerIds)
    && |room.playerIds| <= room.maxPlayers
  }

  /** A current round: its pool is the sum of its bets, it is not finished
      and has no winner yet, every bet is positive and by a known player, a
      waiting round has fewer than two bettors and no times, an active one
      has both times, and the room is active exactly when the round is. */
  predicate RoundOk(round: Round, room: Room, players: map<Id, Player>) {
    && round.totalPool == Sum(round.bets)
    && round.status != Finished
    && round.payout.None?
    && (forall b :: b in round.bets ==> b.amount >= 1 && b.playerId in players)
    && (round.status == Waiting ==> |Bettors(round.bets)| < 2 && round.startTime.None? && round.endTime.None?)
    && (round.status == Active ==> round.startTime.Some? && round.endTime.Some?)
    && room.currentRoundId == Some(round.id)
    && (room.status == RoomActive <==> round.status == Active)
  }

  predicate RoomsOk(s: Service) {
    forall id :: id in s.rooms ==> s.rooms[id].id == id && RoomOk(s.rooms[id])
  }

  predicate PlayersOk(s: Service) {
    forall id :: id in s.players ==> s.players[id].id == id && s.players[id].balance >= 0.0
  }

  /** Runtime entries belong to open rooms; current rounds are well formed;
      an active room has a current round. */
  predicate StatesOk(s: Service) {
    && (forall id :: id in s.states ==> id in s.rooms && s.rooms[id].status != RoomClosed)
    && (forall id :: id in s.states && s.states[id].Some? ==> RoundOk(s.states[id].value, s.rooms[id], s.players))
    && (forall id :: id in s.rooms && s.rooms[id].status == RoomActive ==> CurrentRound(s, id).Some?)
  }

  predicate Inv(s: Service) {
    RoomsOk(s) && PlayersOk(s) && StatesOk(s)
  }

  /** Things that can happen to the engine. */
  datatype Event =
    | CreateRequest(opts: CreateRoomOptions, roundDurationMs: int, roomId: Id, inviteCode: string, roundId: Id)
    | JoinRequest(roomId: Id, playerId: Id)
    | LeaveRequest(roomId: Id, playerId: Id)
    | CloseRequest(roomId: Id, requesterId: Id)
    | BetRequest(roomId: Id, playerId: Id, amount: nat, now: int)
    | DeadlineFired(roomId: Id, draw: real)
    | RestartFired(roomId: Id, roundId: Id)

  /** When a timer event can fire: a deadline is armed only while the
      room's round is active (activation arms it; settlement, leaving and
      closing disarm it), and the restart timer is armed after settlement,
      when the room has no current round. Client calls may come at any
      time. */
  predicate Enabled(s: Service, e: Event) {
    match e
    case DeadlineFired(roomId, _) => CurrentRound(s, roomId).Some? && CurrentRound(s, roomId).value.status == Active
    case RestartFired(roomId, _) => CurrentRound(s, roomId).None?
    case _ => true
  }

  function Step(s: Service, cfg: Config, e: Event): Service {
    match e
    case CreateRequest(opts, d, roomId, code, roundId) => CreateRoom(s, opts, d, roomId, code, roundId).state
    case JoinRequest(roomId, playerId) => JoinRoom(s, roomId, playerId).state
    case LeaveRequest(roomId, playerId) => LeaveRoom(s, roomId, playerId).state
    case CloseRequest(roomId, requesterId) => CloseRoom(s, roomId, requesterId).state
    case BetRequest(roomId, playerId, amount, now) => PlaceBet(s, roomId, playerId, amount, now, cfg).state
    case DeadlineFired(roomId, draw) => EndRound(s, roomId, draw, cfg).state
    case RestartFired(roomId, roundId) => CreateWaitingRound(s, roomId, roundId).state
  }

  // ------------------------------------------------ invariant preservation

  /** The part of the invariant that concerns room `roomId`. */
  predicate LocalOk(t: Service, roomId: Id) {
    && (roomId in t.rooms ==> t.rooms[roomId].id == roomId && RoomOk(t.rooms[roomId]))
    && (roomId in t.states ==> roomId in t.rooms && t.rooms[roomId].status != RoomClosed)
    && (roomId in t.states && t.states[roomId].Some? ==> RoundOk(t.states[roomId].value, t.rooms[roomId], t.players))
    && (roomId in t.rooms && t.rooms[roomId].status == RoomActive ==> CurrentRound(t, roomId).Some?)
  }

  /** `t` agrees with `s` on every room other than `roomId` and knows at
      least the players `s` knows. */
  predicate Frame(s: Service, t: Service, roomId: Id) {
    && (forall id :: id in t.rooms ==> id in s.rooms || id == roomId)
    && (forall id :: id in s.rooms && id != roomId ==> id in t.rooms && t.rooms[id] == s.rooms[id])
    && (forall id :: id in t.states && id != roomId ==> id in s.states && t.states[id] == s.states[id])
    && (forall id :: id in s.states && id != roomId ==> id in t.states)
    && (forall id :: id in s.players ==> id in t.players)
  }

  /** A change confined to one room keeps the invariant when that room is
      left in order and the players stay in order. */
  lemma FramedChangeKeepsInv(s: Service, t: Service, roomId: Id)
    requires Inv(s) && Frame(s, t, roomId) && PlayersOk(t) && LocalOk(t, roomId)
    ensures Inv(t)
  {
    forall id | id in t.rooms && id != roomId ensures t.rooms[id].id == id && RoomOk(t.rooms[id]) {
      assert s.rooms[id].id == id && RoomOk(s.rooms[id]);
    }
    assert RoomsOk(t);
    forall id | id in t.states && t.states[id].Some? && id != roomId
      ensures RoundOk(t.states[id].value, t.rooms[id], t.players)
    {
      var round := s.states[id].value;
      assert RoundOk(round, s.rooms[id], s.players);
      assert forall b :: b in round.bets ==> b.playerId in t.players;
    }
    forall id | id in t.rooms && t.rooms[id].status == RoomActive && id != roomId
      ensures CurrentRound(t, id).Some?
    {
      assert CurrentRound(s, id).Some?;
    }
    assert StatesOk(t);
  }

  lemma CreateRoomKeepsInv(s: Service, opts: CreateRoomOptions, d: int, roomId: Id, code: string, roundId: Id)
    requires Inv(s)
    ensures Inv(CreateRoom(s, opts, d, roomId, code, roundId).state)
  {
    var r := CreateRoom(s, opts, d, roomId, code, roundId);
    if r.outcome.Success? {
      var t := r.state;
      var room := t.rooms[roomId];
      assert room == NewRoomDocument(opts, roomId, code, Some(d)).(currentRoundId := Some(roundId));
      assert RoundOk(EmptyRound(roundId), room, t.players);
      FramedChangeKeepsInv(s, t, roomId);
    }
  }

  lemma JoinRoomKeepsInv(s: Service, roomId: Id, playerId: Id)
    requires Inv(s)
    ensures Inv(JoinRoom(s, roomId, playerId).state)
  {
    var r := JoinRoom(s, roomId, playerId);
    if r.outcome == Success(JoinedRoom) {
      var t := r.state;
      var room := s.rooms[roomId];
      assert RoomOk(room);
      assert NoDup(t.rooms[roomId].playerIds);
      if roomId in t.states && t.states[roomId].Some? {
        assert RoundOk(s.states[roomId].value, room, s.players);
      }
      assert CurrentRound(t, roomId) == CurrentRound(s, roomId);
      FramedChangeKeepsInv(s, t, roomId);
    }
  }

  /** Removing a member keeps a stored room well formed, whatever its
      status becomes. */
  lemma RemoveMemberKeepsRoomOk(room: Room, playerId: Id, status: RoomStatus)
    requires RoomOk(room) && playerId in room.playerIds
    ensures RoomOk(room.(playerIds := RemoveFirst(room.playerIds, playerId), status := status))
  {
    RemoveFirstNoDup(room.playerIds, playerId);
  }

  lemma LeaveRoomKeepsInv(s: Service, roomId: Id, playerId: Id)
    requires Inv(s)
    ensures Inv(LeaveRoom(s, roomId, playerId).state)
  {
    if roomId in s.rooms && playerId in s.rooms[roomId].playerIds {
      var before := s.rooms[roomId];
      var members := RemoveFirst(before.playerIds, playerId);
      var t := LeaveRoom(s, roomId, playerId).state;
      if |members| == 0 {
        RemoveMemberKeepsRoomOk(before, playerId, RoomClosed);
        assert t == s.(rooms := s.rooms[roomId := before.(playerIds := members, status := RoomClosed)],
                       states := s.states - {roomId});
      } else {
        RemoveMemberKeepsRoomOk(before, playerId, before.status);
        assert t == s.(rooms := s.rooms[roomId := before.(playerIds := members, status := before.status)]);
        if roomId in t.states && t.states[roomId].Some? {
          assert RoundOk(s.states[roomId].value, before, s.players);
        }
        assert CurrentRound(t, roomId) == CurrentRound(s, roomId);
      }
      FramedChangeKeepsInv(s, t, roomId);
    } else {
      assert LeaveRoom(s, roomId, playerId).state == s;
    }
  }

  lemma CloseRoomKeepsInv(s: Service, roomId: Id, requesterId: Id)
    requires Inv(s)
    ensures Inv(CloseRoom(s, roomId, requesterId).state)
  {
    var r := CloseRoom(s, roomId, requesterId);
    if r.outcome.Success? {
      assert RoomOk(s.rooms[roomId]);
      FramedChangeKeepsInv(s, r.state, roomId);
    }
  }

  lemma CreateWaitingRoundKeepsInv(s: Service, roomId: Id, roundId: Id)
    requires Inv(s) && CurrentRound(s, roomId).None?
    ensures Inv(CreateWaitingRound(s, roomId, roundId).state)
  {
    var r := CreateWaitingRound(s, roomId, roundId);
    if r.round.Some? {
      var t := r.state;
      assert RoomOk(s.rooms[roomId]);
      assert s.rooms[roomId].status != RoomActive;
      assert RoundOk(EmptyRound(roundId), t.rooms[roomId], t.players);
      FramedChangeKeepsInv(s, t, roomId);
    }
  }

  lemma EndRoundKeepsInv(s: Service, roomId: Id, draw: real, cfg: Config)
    requires Inv(s) && ConfigOk(cfg)
    ensures Inv(EndRound(s, roomId, draw, cfg).state)
  {
    var r := EndRound(s, roomId, draw, cfg);
    if r.round.Some? {
      var t := r.state;
      var before := CurrentRound(s, roomId).value;
      assert RoundOk(before, s.rooms[roomId], s.players);
      assert RoomOk(s.rooms[roomId]);
      assert PlayersOk(t) by {
        if |before.bets| > 0 {
          var p := r.round.value.payout.value;
          assert SplitPool(before.totalPool, cfg.casinoCommissionPercent).winnerAmount == p.winnerAmount;
        }
      }
      FramedChangeKeepsInv(s, t, roomId);
    }
  }

  /** The round a successful bet leaves behind is well formed. */
  lemma PlacedRoundOk(s: Service, roomId: Id, playerId: Id, amount: nat, now: int, cfg: Config)
    requires Inv(s) && PlaceBet(s, roomId, playerId, amount, now, cfg).outcome.Success?
    ensures LocalOk(PlaceBet(s, roomId, playerId, amount, now, cfg).state, roomId)
  {
    var t := PlaceBet(s, roomId, playerId, amount, now, cfg).state;
    var before := CurrentRound(s, roomId).value;
    var after := CurrentRound(t, roomId).value;
    var player := s.players[playerId];
    var bet := Bet(player.id, player.username, amount);
    assert RoundOk(before, s.rooms[roomId], s.players);
    assert RoomOk(s.rooms[roomId]);
    SumAppend(before.bets, bet);
    BettorsAppend(before.bets, bet);
    assert after.bets == before.bets + [bet];
    assert forall b :: b in after.bets ==> b in before.bets || b == bet;
    assert after.totalPool == Sum(after.bets);
    assert forall b :: b in after.bets ==> b.amount >= 1 && b.playerId in t.players;
    assert after.status == Waiting ==> |Bettors(after.bets)| < 2;
    assert RoundOk(after, t.rooms[roomId], t.players);
  }

  lemma PlaceBetKeepsInv(s: Service, roomId: Id, playerId: Id, amount: nat, now: int, cfg: Config)
    requires Inv(s)
    ensures Inv(PlaceBet(s, roomId, playerId, amount, now, cfg).state)
  {
    var r := PlaceBet(s, roomId, playerId, amount, now, cfg);
    if r.outcome.Success? {
      PlacedRoundOk(s, roomId, playerId, amount, now, cfg);
      FramedChangeKeepsInv(s, r.state, roomId);
    }
  }

  /** Every enabled event keeps the invariant. */
  lemma StepKeepsInv(s: Service, cfg: Config, e: Event)
    requires Inv(s) && ConfigOk(cfg) && Enabled(s, e)
    ensures Inv(Step(s, cfg, e))
  {
    match e
    case CreateRequest(opts, d, roomId, code, roundId) => CreateRoomKeepsInv(s, opts, d, roomId, code, roundId);
    case JoinRequest(roomId, playerId) => JoinRoomKeepsInv(s, roomId, playerId);
    case LeaveRequest(roomId, playerId) => LeaveRoomKeepsInv(s, roomId, playerId);
    case CloseRequest(roomId, requesterId) => CloseRoomKeepsInv(s, roomId, requesterId);
    case BetRequest(roomId, playerId, amount, now) => PlaceBetKeepsInv(s, roomId, playerId, amount, now, cfg);
    case DeadlineFired(roomId, draw) => EndRoundKeepsInv(s, roomId, draw, cfg);
    case RestartFired(roomId, roundId) => CreateWaitingRoundKeepsInv(s, roomId, roundId);
  }

  // ------------------------------------------------------ further properties

  /** Bet admission applies its checks in a fixed order and reports the
      first that fails. */
  lemma PlaceBetRejectionOrder(s: Service, roomId: Id, playerId: Id, amount: nat, now: int, cfg: Config)
    ensures var o := PlaceBet(s, roomId, playerId, amount, now, cfg).outcome;
      && (o == Failure(RoomNotFound) <==> roomId !in s.rooms)
      && (o == Failure(NotInRoom) <==> roomId in s.rooms && playerId !in s.rooms[roomId].playerIds)
      && (o == Failure(NoActiveRound) <==>
            roomId in s.rooms && playerId in s.rooms[roomId].playerIds
            && (CurrentRound(s, roomId).None? || CurrentRound(s, roomId).value.status == Finished))
      && (o == Failure(BetOutOfRange) <==>
            roomId in s.rooms && playerId in s.rooms[roomId].playerIds
            && CurrentRound(s, roomId).Some? && CurrentRound(s, roomId).value.status != Finished
            && (amount < s.rooms[roomId].minBet || amount > s.rooms[roomId].maxBet))
      && (o == Failure(PlayerNotFound) <==>
            roomId in s.rooms && playerId in s.rooms[roomId].playerIds
            && CurrentRound(s, roomId).Some? && CurrentRound(s, roomId).value.status != Finished
            && s.rooms[roomId].minBet <= amount <= s.rooms[roomId].maxBet
            && playerId !in s.players)
      && (o == Failure(InsufficientBalance) <==>
            roomId in s.rooms && playerId in s.rooms[roomId].playerIds
            && CurrentRound(s, roomId).Some? && CurrentRound(s, roomId).value.status != Finished
            && s.rooms[roomId].minBet <= amount <= s.rooms[roomId].maxBet
            && playerId in s.players && s.players[playerId].balance < amount as real)
  {
  }

  /** A bet moves money from the bettor to the pool and creates none. */
  lemma PlaceBetConservesMoney(s: Service, roomId: Id, playerId: Id, amount: nat, now: int, cfg: Config)
    requires PlaceBet(s, roomId, playerId, amount, now, cfg).outcome.Success?
    ensures var t := PlaceBet(s, roomId, playerId, amount, now, cfg).state;
      t.players[playerId].balance + CurrentRound(t, roomId).value.totalPool as real
      == s.players[playerId].balance + CurrentRound(s, roomId).value.totalPool as real
  {
  }

  /** Under the invariant the winner is a known player, and settlement
      credits exactly the winner, by the pool less commission. */
  lemma SettlementPaysWinner(s: Service, roomId: Id, draw: real, cfg: Config)
    requires Inv(s) && roomId in s.rooms && CurrentRound(s, roomId).Some?
    requires |CurrentRound(s, roomId).value.bets| > 0
    ensures var res := EndRound(s, roomId, draw, cfg);
      && var p := res.round.value.payout.value;
      && p.winnerId in s.players
      && res.state.players[p.winnerId].balance == s.players[p.winnerId].balance + p.winnerAmount
      && (forall id :: id in s.players && id != p.winnerId ==> res.state.players[id] == s.players[id])
      && p.winnerAmount + p.commission == Sum(CurrentRound(s, roomId).value.bets) as real
  {
    var round := CurrentRound(s, roomId).value;
    assert RoundOk(round, s.rooms[roomId], s.players);
    var p := EndRound(s, roomId, draw, cfg).round.value.payout.value;
    var w := round.bets[SelectWinner(round.bets, draw)];
    assert w in round.bets;
    assert p.winnerId == w.playerId;
  }

  /** For a draw inside the pool the winner is the player of the first bet
      whose running sum reaches the draw. */
  lemma SettlementFollowsDraw(s: Service, roomId: Id, draw: real, cfg: Config)
    requires Inv(s) && roomId in s.rooms && CurrentRound(s, roomId).Some?
    requires |CurrentRound(s, roomId).value.bets| > 0
    requires 0.0 <= draw <= CurrentRound(s, roomId).value.totalPool as real
    ensures var bets := CurrentRound(s, roomId).value.bets;
      exists i :: 0 <= i < |bets|
        && EndRound(s, roomId, draw, cfg).round.value.payout.value.winnerId == bets[i].playerId
        && draw <= RunningSum(bets, i) as real
        && forall j :: 0 <= j < i ==> (RunningSum(bets, j) as real) < draw
  {
    var round := CurrentRound(s, roomId).value;
    assert RoundOk(round, s.rooms[roomId], s.players);
    var i := SelectWinner(round.bets, draw);
    assert RunningSum(round.bets, i) == Prefix(round.bets, i + 1);
  }

  /** A second deadline for the same round does nothing: the round is
      already cleared. */
  lemma EndRoundTwiceIsNoop(s: Service, roomId: Id, draw1: real, draw2: real, cfg: Config)
    ensures var t := EndRound(s, roomId, draw1, cfg).state;
      EndRound(t, roomId, draw2, cfg) == RoundReply(None, t)
  {
  }

  /** Joining twice is the same as joining once. */
  lemma JoinRoomIdempotent(s: Service, roomId: Id, playerId: Id)
    requires JoinRoom(s, roomId, playerId).outcome.Success?
    ensures var t := JoinRoom(s, roomId, playerId).state;
      JoinRoom(t, roomId, playerId) == Reply(Success(AlreadyInRoom), t)
  {
  }

  /** An active round never goes back to waiting: as long as it is the
      room's current round, every enabled event leaves it active. */
  lemma ActiveNeverRegresses(s: Service, cfg: Config, e: Event, roomId: Id)
    requires Inv(s) && Enabled(s, e)
    requires CurrentRound(s, roomId).Some? && CurrentRound(s, roomId).value.status == Active
    ensures var t := Step(s, cfg, e);
      CurrentRound(t, roomId).Some? && CurrentRound(t, roomId).value.id == CurrentRound(s, roomId).value.id
      ==> CurrentRound(t, roomId).value.status == Active
  {
    var t := Step(s, cfg, e);
    match e
    case BetRequest(rid, pid, amount, now) =>
      var r := PlaceBet(s, rid, pid, amount, now, cfg);
      if r.outcome.Success? && rid != roomId {
        assert CurrentRound(t, roomId) == CurrentRound(s, roomId);
      }
    case DeadlineFired(rid, draw) =>
    case RestartFired(rid, roundId) =>
    case CreateRequest(opts, d, rid, code, roundId) =>
      assert rid == roomId ==> rid in s.rooms;
    case JoinRequest(rid, pid) =>
    case LeaveRequest(rid, pid) =>
    case CloseRequest(rid, req) =>
  }

  // A two-player room with stakes 10 and 30 under a 5% commission.

  function DuelRoom(): Room {
    Room("r", "Duel", 2, 1, 100, Some(10000), Private, Some("ABC123"), "x", ["x", "y"], Some("k"), RoomWaiting)
  }

  function DuelConfig(): Config {
    Config(10000, 5.0)
  }

  function DuelStart(): Service {
    Service(map["r" := DuelRoom()], map["r" := Some(EmptyRound("k"))],
            map["x" := Player("x", "X", 100.0), "y" := Player("y", "Y", 100.0)])
  }

  function DuelAfterFirst(): Service {
    Service(map["r" := DuelRoom()], map["r" := Some(Round("k", None, None, [Bet("x", "X", 10)], 10, None, Waiting))],
            map["x" := Player("x", "X", 90.0), "y" := Player("y", "Y", 100.0)])
  }

  function DuelBets(): seq<Bet> {
    [Bet("x", "X", 10), Bet("y", "Y", 30)]
  }

  function DuelAfterSecond(): Service {
    Service(map["r" := DuelRoom().(status := RoomActive)],
            map["r" := Some(Round("k", Some(0), Some(10000), DuelBets(), 40, None, Active))],
            map["x" := Player("x", "X", 90.0), "y" := Player("y", "Y", 70.0)])
  }

  /** The first bet leaves the round waiting: one bettor is not enough. */
  lemma DuelFirstBetWaits()
    ensures PlaceBet(DuelStart(), "r", "x", 10, 0, DuelConfig()) == Reply(Success(BetPlaced), DuelAfterFirst())
  {
    var s := DuelStart();
    var bets := [Bet("x", "X", 10)];
    assert EmptyRound("k").bets + [Bet("x", "X", 10)] == bets;
    assert Bettors(bets) == {"x"};
    assert Sum(bets) == 10 by { assert bets[..0] == []; }
    var r := PlaceBet(s, "r", "x", 10, 0, DuelConfig());
    assert Admissible(s, "r", "x", 10);
    assert r.state.players == DuelAfterFirst().players;
    assert r.state.states == DuelAfterFirst().states;
    assert r.state.rooms == DuelAfterFirst().rooms;
  }

  /** The second player's bet activates the round, which ends one round
      duration after the activating bet. */
  lemma DuelSecondBetActivates()
    ensures PlaceBet(DuelAfterFirst(), "r", "y", 30, 0, DuelConfig()) == Reply(Success(BetPlaced), DuelAfterSecond())
  {
    var bets1 := [Bet("x", "X", 10)];
    BettorsAppend(bets1, Bet("y", "Y", 30));
    assert bets1 + [Bet("y", "Y", 30)] == DuelBets();
    assert Bettors(DuelBets()) == {"x", "y"};
  }

  /** At the deadline the winner, whoever it is, receives 38 and the house
      keeps 2; a draw up to 10 picks the first player, above it the second. */
  lemma DuelSettlement(draw: real)
    requires 0.0 <= draw <= 40.0
    ensures var fin := EndRound(DuelAfterSecond(), "r", draw, DuelConfig());
      && fin.round.value.payout.value.winnerAmount == 38.0
      && fin.round.value.payout.value.commission == 2.0
      && (draw <= 10.0 ==> fin.round.value.payout.value.winnerId == "x" && fin.state.players["x"].balance == 128.0)
      && (draw > 10.0 ==> fin.round.value.payout.value.winnerId == "y" && fin.state.players["y"].balance == 108.0)
  {
    var bets := DuelBets();
    assert Prefix(bets, 1) == 10 by { assert bets[..1] == [Bet("x", "X", 10)]; }
    assert Prefix(bets, 2) == 40 by { assert bets[..2] == bets; assert bets[..1] == [Bet("x", "X", 10)]; }
    var w := SelectWinner(bets, draw);
    assert Sum(bets) == 40 by { PrefixAll(bets); }
    if draw <= 10.0 {
      assert w == 0 by { assert RunningSum(bets, 0) == 10; }
    } else {
      assert w == 1 by { assert RunningSum(bets, 0) == 10; }
    }
  }

  /** As written, the first duel bet is debited and recorded, yet the
      call reports a failure. */
  lemma DuelAsWrittenFirstBetFails()
    ensures PlaceBetAsWritten(DuelStart(), "r", "x", 10, 0, DuelConfig()) == Reply(Failure(SchemaViolation), DuelAfterFirst())
  {
    var s := DuelStart();
    var bets := [Bet("x", "X", 10)];
    assert EmptyRound("k").bets + [Bet("x", "X", 10)] == bets;
    assert Sum(bets) == 10 by { assert bets[..0] == []; }
    assert Admissible(s, "r", "x", 10);
    var r1 := PlaceBetAsWritten(s, "r", "x", 10, 0, DuelConfig());
    assert r1.state.players == DuelAfterFirst().players;
    assert r1.state.states == DuelAfterFirst().states;
    assert r1.state.rooms == DuelAfterFirst().rooms;
  }

  /** As written, the duel never starts: the second bet is debited and
      recorded yet reported as failed, and the round stays waiting with
      two bettors, a state the invariant rules out. */
  lemma DuelAsWrittenNeverStarts()
    ensures var r := PlaceBetAsWritten(DuelAfterFirst(), "r", "y", 30, 0, DuelConfig());
      && r.outcome == Failure(SchemaViolation)
      && r.state.players["y"].balance == 70.0
      && CurrentRound(r.state, "r").Some?
      && CurrentRound(r.state, "r").value.status == Waiting
      && |Bettors(CurrentRound(r.state, "r").value.bets)| == 2
      && !Inv(r.state)
  {
    var t := DuelAfterFirst();
    assert Admissible(t, "r", "y", 30);
    DuelSecondBetActivates();
    assert Bettors(DuelBets()) == {"x", "y"};
    var r2 := PlaceBetAsWritten(t, "r", "y", 30, 0, DuelConfig());
    var round := CurrentRound(r2.state, "r").value;
    assert round.bets == DuelBets();
    assert "r" in r2.state.states && r2.state.states["r"] == Some(round);
    assert !RoundOk(round, r2.state.rooms["r"], r2.state.players);
  }
}
