/** The per-room round engine: room registry operations, the waiting ->
    active -> finished cycle of each room's current round, bet admission
    and settlement. Every service call is one atomic step from a state to
    a state; persistence becomes the maps of `Service`, and the random
    draw, the clock and fresh ids are parameters. */
module RoomService {
  import opened Common
  import opened Models
  import opened Winner
  import opened Aggregation

  /** The global settings the engine reads on every activation and
      settlement (room-specific durations are not consulted). */
  datatype Config = Config(roundDurationMs: int, casinoCommissionPercent: real)

  /** Persisted rooms and players, and per room the in-memory round slot:
      a room id absent from `states` has no runtime entry; an entry `None`
      has its current round cleared. */
  datatype Service = Service(rooms: map<Id, Room>, states: map<Id, Option<Round>>, players: map<Id, Player>)

  /** Why a call was refused. */
  datatype Reason =
    | RoomNotFound
    | RoomIsClosed
    | RoomFull
    | NotInRoom
    | NotCreator
    | NoActiveRound
    | BetOutOfRange
    | PlayerNotFound
    | InsufficientBalance
    | SchemaViolation
    | DuplicateRoomId

  /** What a successful call reports. */
  datatype Note = RoomCreated | AlreadyInRoom | JoinedRoom | LeftRoom | ClosedRoom | BetPlaced

  datatype Outcome = Success(note: Note) | Failure(reason: Reason)

  /** The result of a registry or betting call with the state after it. */
  datatype Reply = Reply(outcome: Outcome, state: Service)

  /** The result of a round-lifecycle call: the round it produced (the new
      waiting round, or the finished one), if any, and the state after. */
  datatype RoundReply = RoundReply(round: Option<Round>, state: Service)

  /** The fields a caller supplies to create a room. */
  datatype CreateRoomOptions = CreateRoomOptions(
    name: string, maxPlayers: int, minBet: int, maxBet: int, kind: RoomType, creatorId: Id)

  /** The room's current round, if its runtime entry holds one. */
  function CurrentRound(s: Service, roomId: Id): Option<Round> {
    if roomId in s.states then s.states[roomId] else None
  }

  /** A fresh waiting round: no bets, empty pool, no times. */
  function EmptyRound(roundId: Id): Round {
    Round(roundId, None, None, [], 0, None, Waiting)
  }

  // ---------------------------------------------------------------- rooms

  /** The room document `createRoom` builds: the creator is its only
      member, it is waiting, and only a private room gets the invite code. */
  function NewRoomDocument(opts: CreateRoomOptions, roomId: Id, inviteCode: string, roundDurationMs: Option<int>): Room {
    Room(roomId, opts.name, opts.maxPlayers, opts.minBet, opts.maxBet, roundDurationMs, opts.kind,
         if opts.kind == Private then Some(inviteCode) else None,
         opts.creatorId, [opts.creatorId], None, DefaultRoomStatus)
  }

  /** Saves a new room (the schema validators run first, then the unique
      id index), gives it an empty runtime entry and its first waiting
      round. */
  function InstallRoom(s: Service, room: Room, roundId: Id): (r: Reply)
    requires room.status == RoomWaiting
    ensures r.outcome.Failure? ==> r.state == s
    ensures r.outcome.Success? <==> ValidRoom(room) && room.id !in s.rooms
    ensures r.outcome.Success? ==>
      && r.state.rooms == s.rooms[room.id := room.(currentRoundId := Some(roundId))]
      && r.state.states == s.states[room.id := Some(EmptyRound(roundId))]
      && r.state.players == s.players
  {
    if !ValidRoom(room) then Reply(Failure(SchemaViolation), s)
    else if room.id in s.rooms then Reply(Failure(DuplicateRoomId), s)
    else
      var s1 := s.(rooms := s.rooms[room.id := room], states := s.states[room.id := None]);
      Reply(Success(RoomCreated), CreateWaitingRound(s1, room.id, roundId).state)
  }

  /** `createRoom` as written: the document carries no `roundDurationMs`. */
  function CreateRoomAsWritten(s: Service, opts: CreateRoomOptions, roomId: Id, inviteCode: string, roundId: Id): (r: Reply)
    ensures r.state == s
    ensures r.outcome == Failure(SchemaViolation)
  {
    InstallRoom(s, NewRoomDocument(opts, roomId, inviteCode, None), roundId)
  }

  /** `createRoom` with the round duration the request carries stored on
      the room, which is what the schema demands. */
  function CreateRoom(s: Service, opts: CreateRoomOptions, roundDurationMs: int, roomId: Id, inviteCode: string, roundId: Id): (r: Reply)
    ensures r.outcome.Success? <==>
      && roomId != "" && roomId !in s.rooms && opts.name != "" && opts.creatorId != ""
      && 2 <= opts.maxPlayers <= 100 && opts.minBet >= 1 && roundDurationMs >= 10000
    ensures r.outcome.Failure? ==> r.state == s
    ensures r.outcome.Success? ==>
      && roomId in r.state.rooms
      && var room := r.state.rooms[roomId];
      && room.playerIds == [opts.creatorId]
      && room.status == RoomWaiting
      && room.creatorId == opts.creatorId
      && (room.inviteCode.Some? <==> opts.kind == Private)
      && room.currentRoundId == Some(roundId)
      && room.name == opts.name && room.maxPlayers == opts.maxPlayers
      && room.minBet == opts.minBet && room.maxBet == opts.maxBet && room.kind == opts.kind
      && room.roundDurationMs == Some(roundDurationMs)
      && CurrentRound(r.state, roomId) == Some(EmptyRound(roundId))
      && r.state.rooms == s.rooms[roomId := room]
      && r.state.states == s.states[roomId := Some(EmptyRound(roundId))]
      && r.state.players == s.players
  {
    InstallRoom(s, NewRoomDocument(opts, roomId, inviteCode, Some(roundDurationMs)), roundId)
  }

  /** The discrepancy on a concrete request: a well-formed public room
      that the corrected call creates is refused as written. */
  lemma CreateRoomAsWrittenRefusesValidRequest(s: Service)
    requires "lobby" !in s.rooms
    ensures var opts := CreateRoomOptions("Lobby", 10, 1, 1000, Public, "alice");
      && CreateRoomAsWritten(s, opts, "lobby", "", "round-1").outcome == Failure(SchemaViolation)
      && CreateRoom(s, opts, 60000, "lobby", "", "round-1").outcome == Success(RoomCreated)
  {
  }

  /** Adds a player to a room's member list. */
  function JoinRoom(s: Service, roomId: Id, playerId: Id): (r: Reply)
    ensures r.outcome.Success? <==>
      roomId in s.rooms && s.rooms[roomId].status != RoomClosed
      && (playerId in s.rooms[roomId].playerIds || |s.rooms[roomId].playerIds| < s.rooms[roomId].maxPlayers)
    ensures r.outcome.Success? ==> r.outcome == Success(AlreadyInRoom) || r.outcome == Success(JoinedRoom)
    ensures r.outcome.Success? ==> (r.outcome == Success(AlreadyInRoom) <==> playerId in s.rooms[roomId].playerIds)
    ensures r.outcome.Failure? || r.outcome == Success(AlreadyInRoom) ==> r.state == s
    ensures r.outcome == Success(JoinedRoom) ==>
      && playerId !in s.rooms[roomId].playerIds
      && r.state == s.(rooms := s.rooms[roomId := s.rooms[roomId].(playerIds := s.rooms[roomId].playerIds + [playerId])])
  {
    if roomId !in s.rooms then Reply(Failure(RoomNotFound), s)
    else
      var room := s.rooms[roomId];
      if room.status == RoomClosed then Reply(Failure(RoomIsClosed), s)
      else if playerId in room.playerIds then Reply(Success(AlreadyInRoom), s)
      else if |room.playerIds| >= room.maxPlayers then Reply(Failure(RoomFull), s)
      else Reply(Success(JoinedRoom), s.(rooms := s.rooms[roomId := room.(playerIds := room.playerIds + [playerId])]))
  }

  /** Removes a player from a room; the room closes, and its runtime entry
      is dropped, when its last member leaves. */
  function LeaveRoom(s: Service, roomId: Id, playerId: Id): (r: Reply)
    ensures r.outcome.Success? <==> roomId in s.rooms && playerId in s.rooms[roomId].playerIds
    ensures r.outcome.Failure? ==> r.state == s
    ensures r.outcome.Success? ==>
      && roomId in r.state.rooms
      && var before := s.rooms[roomId];
      && var after := r.state.rooms[roomId];
      && |after.playerIds| == |before.playerIds| - 1
      && multiset(after.playerIds) == multiset(before.playerIds) - multiset{playerId}
      && (after.status == RoomClosed <==> before.status == RoomClosed || |after.playerIds| == 0)
      && after == before.(playerIds := after.playerIds, status := if |after.playerIds| == 0 then RoomClosed else before.status)
      && r.state.states == (if |after.playerIds| == 0 then s.states - {roomId} else s.states)
      && r.state.players == s.players
      && r.state.rooms == s.rooms[roomId := after]
  {
    if roomId !in s.rooms then Reply(Failure(RoomNotFound), s)
    else
      var room := s.rooms[roomId];
      if playerId !in room.playerIds then Reply(Failure(NotInRoom), s)
      else
        var members := RemoveFirst(room.playerIds, playerId);
        if |members| == 0 then
          Reply(Success(LeftRoom), s.(rooms := s.rooms[roomId := room.(playerIds := members, status := RoomClosed)],
                                      states := s.states - {roomId}))
        else
          Reply(Success(LeftRoom), s.(rooms := s.rooms[roomId := room.(playerIds := members)]))
  }

  /** Closes a room on its creator's request and drops its runtime entry,
      current round included. */
  function CloseRoom(s: Service, roomId: Id, requesterId: Id): (r: Reply)
    ensures r.outcome.Success? <==> roomId in s.rooms && s.rooms[roomId].creatorId == requesterId
    ensures r.outcome.Failure? ==> r.state == s
    ensures r.outcome.Success? ==>
      && r.state.rooms == s.rooms[roomId := s.rooms[roomId].(status := RoomClosed)]
      && r.state.states == s.states - {roomId}
      && r.state.players == s.players
  {
    if roomId !in s.rooms then Reply(Failure(RoomNotFound), s)
    else if s.rooms[roomId].creatorId != requesterId then Reply(Failure(NotCreator), s)
    else Reply(Success(ClosedRoom), s.(rooms := s.rooms[roomId := s.rooms[roomId].(status := RoomClosed)],
                                       states := s.states - {roomId}))
  }

  // --------------------------------------------------------------- rounds

  /** Installs a fresh waiting round as the room's current round. Nothing
      happens for a missing or closed room. */
  function CreateWaitingRound(s: Service, roomId: Id, roundId: Id): (r: RoundReply)
    ensures r.round.None? <==> roomId !in s.rooms || s.rooms[roomId].status == RoomClosed
    ensures r.round.None? ==> r.state == s
    ensures r.round.Some? ==>
      && r.round.value == EmptyRound(roundId)
      && Sum(r.round.value.bets) == r.round.value.totalPool == 0
      && CurrentRound(r.state, roomId) == r.round
      && r.state.rooms == s.rooms[roomId := s.rooms[roomId].(currentRoundId := Some(roundId))]
      && r.state.states == s.states[roomId := r.round]
      && r.state.players == s.players
  {
    if roomId !in s.rooms || s.rooms[roomId].status == RoomClosed then RoundReply(None, s)
    else
      var round := EmptyRound(roundId);
      RoundReply(Some(round), s.(rooms := s.rooms[roomId := s.rooms[roomId].(currentRoundId := Some(roundId))],
                                 states := s.states[roomId := Some(round)]))
  }

  /** Starts the clock of a waiting round: the round gets its start and end
      times and becomes active, and so does its room. Any other call is a
      no-op. */
  function ActivateRound(s: Service, roomId: Id, now: int, cfg: Config): (r: Service)
    ensures
      || CurrentRound(s, roomId).None?
      || CurrentRound(s, roomId).value.status != Waiting
      || roomId !in s.rooms
      ==> r == s
    ensures CurrentRound(s, roomId).Some? && CurrentRound(s, roomId).value.status == Waiting && roomId in s.rooms ==>
      && var before := CurrentRound(s, roomId).value;
      && CurrentRound(r, roomId).Some?
      && var after := CurrentRound(r, roomId).value;
      && after.status == Active
      && after.startTime == Some(now)
      && after.endTime.Some? && after.endTime.value - now == cfg.roundDurationMs
      && after == before.(status := Active, startTime := after.startTime, endTime := after.endTime)
      && r.rooms == s.rooms[roomId := s.rooms[roomId].(status := RoomActive)]
      && r.states == s.states[roomId := Some(after)]
      && r.players == s.players
  {
    var cur := CurrentRound(s, roomId);
    if cur.None? || cur.value.status != Waiting then s
    else if roomId !in s.rooms then s
    else
      var round := cur.value.(startTime := Some(now), endTime := Some(now + cfg.roundDurationMs), status := Active);
      s.(states := s.states[roomId := Some(round)],
         rooms := s.rooms[roomId := s.rooms[roomId].(status := RoomActive)])
  }

  /** The conditions under which a bet is admitted, all of them: the room
      exists, the player is a member, the room has an unfinished current
      round, the amount lies within the room's bounds, the player exists
      and can afford it. */
  predicate Admissible(s: Service, roomId: Id, playerId: Id, amount: nat) {
    && roomId in s.rooms
    && playerId in s.rooms[roomId].playerIds
    && CurrentRound(s, roomId).Some? && CurrentRound(s, roomId).value.status != Finished
    && s.rooms[roomId].minBet <= amount <= s.rooms[roomId].maxBet
    && playerId in s.players
    && s.players[playerId].balance >= amount as real
  }

  /** Admits a bet: debits the bettor, appends the bet, grows the pool and,
      once two distinct players have bet into a waiting round, activates
      it. A refused bet changes nothing. */
  function PlaceBet(s: Service, roomId: Id, playerId: Id, amount: nat, now: int, cfg: Config): (r: Reply)
    ensures r.outcome.Success? <==> Admissible(s, roomId, playerId, amount)
    ensures r.outcome.Failure? ==> r.state == s
    ensures r.outcome.Success? ==>
      && var before := CurrentRound(s, roomId).value;
      && var player := s.players[playerId];
      && CurrentRound(r.state, roomId).Some?
      && var after := CurrentRound(r.state, roomId).value;
      && after.bets == before.bets + [Bet(player.id, player.username, amount)]
      && after.totalPool == before.totalPool + amount
      && after.id == before.id
      && r.state.players == s.players[playerId := player.(balance := player.balance - amount as real)]
      && r.state.states.Keys == s.states.Keys
      && (forall id :: id in s.states && id != roomId ==> r.state.states[id] == s.states[id])
      && r.state.rooms.Keys == s.rooms.Keys
      && (forall id :: id in s.rooms && id != roomId ==> r.state.rooms[id] == s.rooms[id])
      && r.state.rooms[roomId].playerIds == s.rooms[roomId].playerIds
      && (after.status == Active <==> before.status == Active || |Bettors(after.bets)| >= 2)
      && (before.status == Waiting && after.status == Active ==>
            && after.startTime == Some(now) && after.endTime == Some(now + cfg.roundDurationMs)
            && r.state.rooms[roomId].status == RoomActive)
      && (before.status == after.status ==> r.state.rooms[roomId] == s.rooms[roomId] && after.startTime == before.startTime && after.endTime == before.endTime)
      && r.state.rooms[roomId] == s.rooms[roomId].(status := if before.status == after.status then s.rooms[roomId].status else RoomActive)
      && after == before.(bets := after.bets, totalPool := after.totalPool, status := after.status,
                          startTime := after.startTime, endTime := after.endTime)
  {
    if roomId !in s.rooms then Reply(Failure(RoomNotFound), s)
    else
      var room := s.rooms[roomId];
      var cur := CurrentRound(s, roomId);
      if playerId !in room.playerIds then Reply(Failure(NotInRoom), s)
      else if cur.None? || cur.value.status == Finished then Reply(Failure(NoActiveRound), s)
      else if amount < room.minBet || amount > room.maxBet then Reply(Failure(BetOutOfRange), s)
      else if playerId !in s.players then Reply(Failure(PlayerNotFound), s)
      else
        var player := s.players[playerId];
        if player.balance < amount as real then Reply(Failure(InsufficientBalance), s)
        else
          var round := cur.value;
          var s1 := RecordBet(s, roomId, playerId, amount);
          var bets := round.bets + [Bet(player.id, player.username, amount)];
          var s2 := if round.status == Waiting && |Bettors(bets)| >= 2 then ActivateRound(s1, roomId, now, cfg) else s1;
          Reply(Success(BetPlaced), s2)
  }

  /** The in-memory effect of an admitted bet before any save: the bettor
      is debited, the bet is appended and the pool grows. */
  function RecordBet(s: Service, roomId: Id, playerId: Id, amount: nat): Service
    requires Admissible(s, roomId, playerId, amount)
  {
    var round := CurrentRound(s, roomId).value;
    var player := s.players[playerId];
    var bets := round.bets + [Bet(player.id, player.username, amount)];
    s.(players := s.players[playerId := player.(balance := player.balance - amount as real)],
       states := s.states[roomId := Some(round.(bets := bets, totalPool := round.totalPool + amount))])
  }

  /** `placeBet` as written: the bet it appends has no `id`, which the bet
      schema requires, so saving the round is refused after the debit has
      been saved and the bet recorded in memory. The call fails, and the
      activation check after the save is never reached. */
  function PlaceBetAsWritten(s: Service, roomId: Id, playerId: Id, amount: nat, now: int, cfg: Config): (r: Reply)
    ensures !Admissible(s, roomId, playerId, amount) ==> r == PlaceBet(s, roomId, playerId, amount, now, cfg)
    ensures Admissible(s, roomId, playerId, amount) ==>
      && var placed := PlaceBet(s, roomId, playerId, amount, now, cfg).state;
      && r.outcome == Failure(SchemaViolation)
      && r.state.players == placed.players
      && CurrentRound(r.state, roomId).Some?
      && CurrentRound(r.state, roomId).value.bets == CurrentRound(placed, roomId).value.bets
      && CurrentRound(r.state, roomId).value.totalPool == CurrentRound(placed, roomId).value.totalPool
      && CurrentRound(r.state, roomId).value.status == CurrentRound(s, roomId).value.status
      && r.state.rooms == s.rooms
    ensures Admissible(s, roomId, playerId, amount) ==>
      && var before := CurrentRound(s, roomId).value;
      && var placed := CurrentRound(PlaceBet(s, roomId, playerId, amount, now, cfg).state, roomId).value;
      && r.state.states == s.states[roomId := Some(before.(bets := placed.bets, totalPool := placed.totalPool))]
  {
    if !Admissible(s, roomId, playerId, amount) then PlaceBet(s, roomId, playerId, amount, now, cfg)
    else Reply(Failure(SchemaViolation), RecordBet(s, roomId, playerId, amount))
  }

  /** Adds `amount` to a known player's balance; an unknown id changes
      nothing. */
  function Credit(players: map<Id, Player>, id: Id, amount: real): (r: map<Id, Player>)
    ensures r.Keys == players.Keys
    ensures forall p :: p in players && p != id ==> r[p] == players[p]
    ensures id in players ==> r[id] == players[id].(balance := players[id].balance + amount)
  {
    if id in players then players[id := players[id].(balance := players[id].balance + amount)] else players
  }

  /** Finishes the room's current round: with bets, draws the winner with
      `r`, splits the pool into commission and payout and credits the
      winner; in every case clears the current round and sets the room
      back to waiting. Returns the finished round. Without a current round
      nothing happens. */
  function EndRound(s: Service, roomId: Id, r: real, cfg: Config): (res: RoundReply)
    ensures CurrentRound(s, roomId).None? || roomId !in s.rooms ==> res == RoundReply(None, s)
    ensures CurrentRound(s, roomId).Some? && roomId in s.rooms ==>
      && var before := CurrentRound(s, roomId).value;
      && res.round.Some?
      && var done := res.round.value;
      && done.status == Finished
      && done.id == before.id && done.bets == before.bets && done.totalPool == before.totalPool
      && done.startTime == before.startTime && done.endTime == before.endTime
      && CurrentRound(res.state, roomId).None?
      && res.state.states == s.states[roomId := None]
      && res.state.rooms == s.rooms[roomId := s.rooms[roomId].(status := RoomWaiting)]
      && (|before.bets| == 0 ==> done.payout == before.payout && res.state.players == s.players)
      && (|before.bets| > 0 ==>
            && done.payout.Some?
            && done.payout.value.winnerAmount + done.payout.value.commission == before.totalPool as real
            && done.payout.value.commission == before.totalPool as real * cfg.casinoCommissionPercent / 100.0
            && done.payout.value.winnerId in Bettors(before.bets)
            && done.payout.value.winnerId == before.bets[SelectWinner(before.bets, r)].playerId
            && done.payout.value.winnerUsername == before.bets[SelectWinner(before.bets, r)].playerUsername
            && res.state.players == Credit(s.players, done.payout.value.winnerId, done.payout.value.winnerAmount))
  {
    var cur := CurrentRound(s, roomId);
    if cur.None? || roomId !in s.rooms then RoundReply(None, s)
    else
      var round := cur.value;
      var after := s.(states := s.states[roomId := None],
                      rooms := s.rooms[roomId := s.rooms[roomId].(status := RoomWaiting)]);
      if |round.bets| == 0 then RoundReply(Some(round.(status := Finished)), after)
      else
        var w := round.bets[SelectWinner(round.bets, r)];
        WinnerIsBettor(round.bets, r);
        var split := SplitPool(round.totalPool, cfg.casinoCommissionPercent);
        var payout := Payout(w.playerId, w.playerUsername, split.winnerAmount, split.commission);
        RoundReply(Some(round.(status := Finished, payout := Some(payout))),
                   after.(players := Credit(s.players, w.playerId, split.winnerAmount)))
  }

  /** The players who have bet in the room's current round, one line each
      with their total, in order of first bet (avatars are not modelled). */
  function BettingPlayers(s: Service, roomId: Id): (t: seq<Tally>)
    ensures CurrentRound(s, roomId).None? ==> t == []
    ensures CurrentRound(s, roomId).Some? ==>
      && Players(t) == Bettors(CurrentRound(s, roomId).value.bets)
      && DistinctPlayers(t)
  {
    match CurrentRound(s, roomId)
    case None => []
    case Some(round) => Aggregate(round.bets)
  }

  /** Each line of `BettingPlayers` carries the player's total stake and
      the username of their first bet, the lines come in order of first
      bet, and together they account for the whole of the bets. */
  lemma BettingPlayersLines(s: Service, roomId: Id)
    requires CurrentRound(s, roomId).Some?
    ensures var bets := CurrentRound(s, roomId).value.bets;
      var t := BettingPlayers(s, roomId);
      && (forall k :: 0 <= k < |t| ==>
            && t[k].playerId in Bettors(bets)
            && t[k].total == PlayerTotal(bets, t[k].playerId)
            && t[k].username == bets[FirstIndex(bets, t[k].playerId)].playerUsername)
      && (forall i, j :: 0 <= i < j < |t| ==> FirstIndex(bets, t[i].playerId) < FirstIndex(bets, t[j].playerId))
      && TallySum(t) == Sum(bets)
  {
    var bets := CurrentRound(s, roomId).value.bets;
    AggregateTotals(bets);
    AggregateUsernames(bets);
    AggregateOrder(bets);
    AggregateSum(bets);
  }
}
