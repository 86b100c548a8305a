# Grand Wager rooms — a Dafny model

Grand Wager is a multiplayer "jackpot" game. Players join rooms and stake
amounts into the room's current round. When the round's clock runs out, one
bettor is drawn with probability proportional to their stake. That bettor
wins the pool minus the house commission.

This project models two parts of it:

- The backend's per-room round engine (`RoomService`):
  - room creation, joining, leaving and closing;
  - the waiting → active → finished cycle of each room's current round;
  - bet admission with its ordered rejection checks;
  - activation once two distinct players have bet;
  - the weighted draw;
  - settlement: commission, payout and credit.
- The pure helpers of the client's game screen: the bet panel's
  arithmetic, input filter and labels, the wheel's per-player segments and
  countdown label, and the screen's own stake and chance display.

Modelling choices:

- **State.** Persistence becomes an immutable state `Service`: the stored
  rooms, the per-room runtime slot holding the current round, and the
  players' balances.
- **Calls.** Every service call is one atomic, pure transition. It returns
  an `Outcome` (an enumeration of the source's success and failure
  messages) together with the next state.
- **Inputs.** The random draw, the clock and fresh ids are parameters.
- **Timers.** The round deadline and the delayed creation of the next
  round are explicit events of `Engine.Step`.
- **Corrected calls in the engine.** `Engine.Step` runs the corrected
  `RoomService.CreateRoom` and `RoomService.PlaceBet`, not the as-written
  `CreateRoomAsWritten` and `PlaceBetAsWritten` (see "## Findings"). The
  invariant lemmas are therefore about the corrected calls.
- **The invariant.** `Engine.Inv` is proved to hold after every enabled
  event. It covers:
  - rooms satisfy the schema, have no duplicate members and are within
    capacity;
  - balances are non-negative;
  - a round's pool equals the sum of its bets;
  - a waiting round has fewer than two bettors;
  - room status and round status agree.
- **Numbers.** Bet amounts are `nat`. Balances, commission and payout are
  `real`.

Modules:

- `Common`: an option type and first-occurrence removal.
- `Decimal`: decimal rendering of naturals.
- `Models`: the documents and the sums over bets.
- `Winner`: the draw and the pool split.
- `Aggregation`: folding bets into per-player lines.
- `RoomService`: the service calls.
- `Engine`: events, the invariant and the scenario lemmas.
- `BetPanel`, `BetWheel`, `GrandWager`: the client helpers.

Behaviours of the code the model keeps:

- The bet bound `[minBet, maxBet]` is checked per bet, not on the player's
  cumulative stake.
- A round has no bettor capacity. The room's member list does:
  `joinRoom` refuses a full room.
- Activation and settlement read the global round duration and commission
  percentage, not the room's own duration.
- `closeRoom` has no guard for public rooms or for bets in flight. Neither
  does `leaveRoom` when the last member leaves. In both cases the round is
  dropped with its pool, and the stakes are not refunded.
- `placeBet` does not look at the room's status. A closed room has no
  runtime slot, so its bets are refused as "no active round".
- The draw value is not stored on the round.
- Private rooms are not limited to two players, and no quota on private
  rooms is enforced.

## Model

| member | source | states |
|---|---|---|
| Common.RemoveFirst | backend/src/services/RoomService.ts:140-145 | splicing out the first occurrence of a member shortens the list by one and removes exactly one copy of that id; an absent id leaves the list unchanged |
| Common.RemoveFirstAt | backend/src/services/RoomService.ts:140-145 | when `i` is the first position holding the id, the removal cuts out exactly position `i` and keeps the other members in order |
| Common.RemoveFirstKeepsOrder | backend/src/services/RoomService.ts:140-145 | for a present id there is a first position holding it (what `indexOf` finds), and the removal is the list with that one position spliced out |
| Common.RemoveFirstNoDup | backend/src/services/RoomService.ts:140-145 | on a duplicate-free member list the leaving player is gone afterwards, every other member stays, and the list stays duplicate-free |
| Decimal.ParseShow | frontend/src/components/BetPanel.tsx:92-95 | the decimal rendering of a whole number reads back as that number |
| Decimal.ShowInjective | frontend/src/components/BetPanel.tsx:92-95 | different numbers render differently |
| Decimal.PadTwo | frontend/src/components/BetWheel.tsx:207 | a number below 100 zero-padded to two characters is two digits that read back as the number |
| Winner.Scan | backend/src/services/RoomService.ts:522-528 | the accumulating loop stops at the first bet whose running sum reaches the draw, and reports none when no running sum does |
| Winner.SelectWinner | backend/src/services/RoomService.ts:518-531 | the winner index is a valid bet; for a draw within the total it is the first bet in arrival order whose running sum is at least the draw |
| Winner.FallbackUnreachable | backend/src/services/RoomService.ts:530 | for a draw up to the total stake, the fallback to the first bet is never taken |
| Winner.WinnerInOwnInterval | backend/src/services/RoomService.ts:518-531 | for a draw in (0, total], the winning bet's interval (Prefix(w), Prefix(w+1)] contains the draw |
| Winner.IntervalsDisjoint | backend/src/services/RoomService.ts:522-528 | the bets' intervals do not overlap, so a draw lies in at most one |
| Winner.WinnerInterval | backend/src/services/RoomService.ts:518-531 | fairness: for a draw in (0, total], bet i wins exactly when the draw lies in (Prefix(i), Prefix(i+1)], an interval as long as its amount |
| Winner.UpperEdgeSelectsLast | backend/src/services/RoomService.ts:525 | a draw equal to the total picks the last bet when it is positive |
| Winner.SplitPool | backend/src/services/RoomService.ts:457-459 | commission plus payout is the pool; with a percentage in [0, 100] both lie between 0 and the pool |
| Aggregation.FirstIndex | backend/src/services/RoomService.ts:340-348 | the position of a player's first bet: it is theirs and no earlier bet is |
| Aggregation.Aggregate | backend/src/services/RoomService.ts:340-348 | the per-player fold has one line per distinct bettor and no other lines |
| Aggregation.AggregateTotals | backend/src/services/RoomService.ts:343-346 | each line's total is the sum of that player's bet amounts |
| Aggregation.AggregateUsernames | backend/src/services/RoomService.ts:345-347 | each line keeps the username of the player's first bet |
| Aggregation.AggregateRanks | frontend/src/components/BetWheel.tsx:88-90 | the k-th line belongs to the player who was the k-th distinct player to bet |
| Aggregation.AggregateOrder | backend/src/services/RoomService.ts:351-361 | lines come in order of each player's first bet, as the map's insertion order does |
| Aggregation.AggregateSum | frontend/src/components/BetWheel.tsx:99 | the line totals add up to the sum of all bets |
| RoomService.InstallRoom | backend/src/models/Room.ts:22-35 | saving a new room succeeds exactly when it meets the schema (non-empty id, name and creator; 2 ≤ maxPlayers ≤ 100; minBet ≥ 1; roundDurationMs present and ≥ 10000) and its id is unused; a refused save changes nothing |
| RoomService.CreateRoomAsWritten | backend/src/services/RoomService.ts:37-50 | as written, the room document lacks the required round duration, so the save is refused for every request and nothing changes |
| RoomService.CreateRoomAsWrittenRefusesValidRequest | backend/src/services/RoomService.ts:37-50 | a well-formed request that the corrected call accepts is refused as written |
| RoomService.CreateRoom | backend/src/services/RoomService.ts:34-64 | with the duration stored, creation succeeds exactly for schema-valid options and an unused id, and a refusal changes nothing; on success the room keeps the requested name, capacity, bet bounds, kind and duration, the creator is the only member, the room waits, only a private room has an invite code, an empty waiting round is installed, and no other room, round or player changes |
| RoomService.JoinRoom | backend/src/services/RoomService.ts:84-121 | joining succeeds exactly for an existing, non-closed room the player is in or that has room left; a success reports "already in room" exactly for an existing member, and then nothing changes, as after a refusal; a newcomer's success appends the player and nothing else changes |
| RoomService.LeaveRoom | backend/src/services/RoomService.ts:133-170 | leaving succeeds exactly for a member; one copy is removed; the room is closed and its runtime slot dropped exactly when it becomes empty, and otherwise keeps its status; every other field of the room, every other room, every other runtime slot and the players stay as they were |
| RoomService.CloseRoom | backend/src/services/RoomService.ts:172-197 | closing succeeds exactly for the creator, marks the room closed and drops its runtime slot with its round; a refusal changes nothing |
| RoomService.CreateWaitingRound | backend/src/services/RoomService.ts:210-250 | a missing or closed room yields no round and no change; otherwise an empty waiting round (no bets, pool 0, no times) becomes the current round and the room's current round id |
| RoomService.ActivateRound | backend/src/services/RoomService.ts:252-292 | a no-op unless the current round is waiting; otherwise the round becomes active with start time now and end time = start time + the configured duration, every other field of the round is kept, the room becomes active, and no other room or runtime slot changes |
| RoomService.PlaceBet | backend/src/services/RoomService.ts:365-432 | a bet is admitted exactly when all six checks pass, and a refusal changes nothing; on success the bettor is debited the amount, the bet is appended, the pool grows by the amount, other rooms and rounds are untouched, and the round is active afterwards exactly when it was or two distinct players have bet; an activation stamps the start and end times and marks the room active, and otherwise the room is unchanged; the round's id and payout are kept |
| RoomService.PlaceBetAsWritten | backend/src/services/RoomService.ts:394-432 | as written, a bet that passes every check is still reported as failed: the debit and the recorded bet are those of the corrected call, but the round's status never changes, the only runtime change is the room's round gaining the bet and the pool (its id, times and payout kept, other rooms' slots untouched); a bet that fails a check behaves as in the corrected call |
| RoomService.Credit | backend/src/services/RoomService.ts:467-475 | only the winner's balance changes, by the credited amount; an unknown winner changes nothing |
| RoomService.EndRound | backend/src/services/RoomService.ts:434-516 | without a current round nothing happens; otherwise the round is finished and cleared and the room waits; without bets no payout is set and no balance changes; with bets payout + commission = pool, commission = pool × pct / 100, the winner's id and username are those of the drawn bet, and only the winner is credited |
| RoomService.BettingPlayers | backend/src/services/RoomService.ts:335-363 | no current round gives no lines; otherwise one line per distinct bettor |
| RoomService.BettingPlayersLines | backend/src/services/RoomService.ts:340-361 | each line carries the player's total and first username, lines follow first-bet order, and the totals add up to the bets |
| Engine.CreateRoomKeepsInv | backend/src/services/RoomService.ts:34-64 | creating a room preserves the engine invariant |
| Engine.JoinRoomKeepsInv | backend/src/services/RoomService.ts:84-121 | joining preserves the invariant, member capacity included |
| Engine.RemoveMemberKeepsRoomOk | backend/src/services/RoomService.ts:138-151 | removing a member keeps a stored room schema-valid, duplicate-free and within capacity |
| Engine.LeaveRoomKeepsInv | backend/src/services/RoomService.ts:133-170 | leaving preserves the invariant |
| Engine.CloseRoomKeepsInv | backend/src/services/RoomService.ts:172-197 | closing preserves the invariant |
| Engine.CreateWaitingRoundKeepsInv | backend/src/services/RoomService.ts:210-250 | installing the next waiting round into a room without one preserves the invariant |
| Engine.EndRoundKeepsInv | backend/src/services/RoomService.ts:434-516 | settlement under a commission in [0, 100] preserves the invariant, non-negative balances included |
| Engine.PlacedRoundOk | backend/src/services/RoomService.ts:394-429 | after an admitted bet the round's pool is still the sum of its bets, and a round still waiting has fewer than two bettors |
| Engine.PlaceBetKeepsInv | backend/src/services/RoomService.ts:365-432 | bet placement preserves the invariant |
| Engine.StepKeepsInv | backend/src/services/RoomService.ts:34-516 | every enabled event (client call, deadline, restart) preserves the invariant |
| Engine.PlaceBetRejectionOrder | backend/src/services/RoomService.ts:365-392 | the reported refusal is the first failing check in the source's order: room, membership, round, bounds, player, balance |
| Engine.PlaceBetConservesMoney | backend/src/services/RoomService.ts:394-408 | an admitted bet moves exactly its amount from the bettor's balance into the pool |
| Engine.SettlementPaysWinner | backend/src/services/RoomService.ts:453-475 | under the invariant the winner is a known player credited exactly the payout, no one else's balance changes, and payout + commission is the sum of the bets |
| Engine.SettlementFollowsDraw | backend/src/services/RoomService.ts:518-531 | for a draw within the pool the credited player owns the first bet whose running sum reaches the draw |
| Engine.EndRoundTwiceIsNoop | backend/src/services/RoomService.ts:434-436 | a second deadline for an already settled round changes nothing |
| Engine.JoinRoomIdempotent | backend/src/services/RoomService.ts:95-97 | joining again after a successful join reports "already in room" and changes nothing |
| Engine.ActiveNeverRegresses | backend/src/services/RoomService.ts:252-256 | an active round stays active under every enabled event for as long as it is the room's current round |
| Engine.DuelFirstBetWaits | backend/src/services/RoomService.ts:424-429 | in a two-member room, the first bet (10 of 100) debits the bettor and leaves the round waiting |
| Engine.DuelSecondBetActivates | backend/src/services/RoomService.ts:261-270 | the second player's bet (30) activates round and room, with the end time one duration after the bet |
| Engine.DuelSettlement | backend/src/services/RoomService.ts:453-475 | under 5% commission the pool of 40 pays 38 and keeps 2; a draw up to 10 credits the first player (to 128), a larger one the second (to 108) |
| Engine.DuelAsWrittenFirstBetFails | backend/src/services/RoomService.ts:394-408 | as written, the first duel bet is debited and recorded but reported as failed |
| Engine.DuelAsWrittenNeverStarts | backend/src/services/RoomService.ts:394-429 | as written, the second duel bet is also debited, recorded and reported as failed, and the round stays waiting with two bettors, which the invariant rules out |
| BetPanel.EffectiveMaxBet | frontend/src/components/BetPanel.tsx:41 | the effective maximum is at most the room bound and at most the balance, and equals one of them |
| BetPanel.ModifyBet | frontend/src/components/BetPanel.tsx:50-81 | the lowering buttons never go below the minimum, the raising buttons never above the effective maximum, MIN gives the minimum and MAX the effective maximum |
| BetPanel.HalfRoundsDown | frontend/src/components/BetPanel.tsx:57-58 | halving yields exactly max(minBet, floor(current/2)): at least both, and either the minimum or the whole amount in (current/2 − 1, current/2] |
| BetPanel.PlaceEnabledMeansAffordable | frontend/src/components/BetPanel.tsx:181 | the place button is active exactly when the panel is enabled and minBet ≤ amount ≤ min(maxBet, balance) |
| BetPanel.ModifierKeepsPlaceable | frontend/src/components/BetPanel.tsx:50-81 | from a placeable amount, every button yields a placeable amount |
| BetPanel.EnabledModifierMoves | frontend/src/components/BetPanel.tsx:104-176 | a button that is not greyed out strictly lowers or raises the amount in its own direction |
| BetPanel.FilterInput | frontend/src/components/BetPanel.tsx:83-89 | the field takes a new text exactly when it is empty or all decimal digits, and otherwise keeps the old one, so a digit-only field stays digit-only |
| BetPanel.FilterAcceptsNumerals | frontend/src/components/BetPanel.tsx:86 | every whole number typed in full is accepted and reads back as itself |
| BetPanel.FilterRefusesNonDigits | frontend/src/components/BetPanel.tsx:86 | any typed text holding a character other than a decimal digit is refused and the old text kept; in particular signs, decimal points and exponents are |
| BetPanel.FormatStep | frontend/src/components/BetPanel.tsx:92-95 | a step label ends in `k` exactly when the step is at least 1000 |
| BetPanel.FormatStepReadsBack | frontend/src/components/BetPanel.tsx:92-95 | a `k` label reads back as the step rounded half-up to thousands (exactly for multiples of 1000); any other label reads back as the step |
| BetWheel.DecorateDescribes | frontend/src/components/BetWheel.tsx:85-105 | before sorting, every line belongs to a bettor and carries that player's total stake, the username of their first bet, their share of the pool and the palette colour of their arrival rank mod 10; the lines come in order of first bet |
| BetWheel.Insert | frontend/src/components/BetWheel.tsx:107 | inserting into the ordered list adds exactly that entry and its stake |
| BetWheel.SortByTotal | frontend/src/components/BetWheel.tsx:107 | the sort is a permutation and keeps the total stake |
| BetWheel.InsertOrdered | frontend/src/components/BetWheel.tsx:107 | inserting an earlier arrival into a list ordered by descending stake, ties by arrival, keeps it ordered |
| BetWheel.SortOrdered | frontend/src/components/BetWheel.tsx:107 | sorting lines in arrival order gives descending stakes with equal stakes in arrival order, as a stable sort does |
| BetWheel.AggregatedBets | frontend/src/components/BetWheel.tsx:85-108 | one segment per distinct bettor, each with that player's total, first username, share of the pool and colour by arrival rank mod 10; segments sorted by non-increasing stake (stable); totals add up to all bets |
| BetWheel.SegmentsDistinct | frontend/src/components/BetWheel.tsx:88-100 | no player appears twice on the wheel |
| BetWheel.EmptyPoolShowsZero | frontend/src/components/BetWheel.tsx:104 | with a zero pool every segment shows 0 percent |
| BetWheel.SharesAddUp | frontend/src/components/BetWheel.tsx:102-105 | when the pool is the sum of the bets, the segments' percentages add up to 100 |
| BetWheel.FormatTime | frontend/src/components/BetWheel.tsx:202-210 | the countdown label is never empty |
| BetWheel.FormatTimeReadsBack | frontend/src/components/BetWheel.tsx:202-210 | from one minute on the label is `m:ss` with two-digit seconds below 60 and m·60 + ss = floor(ms/1000); below a minute it is at most two digits reading back as floor(ms/1000) |
| GrandWager.Filter | frontend/src/components/GrandWager.tsx:48-49 | the filtered bets are exactly the bets of the given player |
| GrandWager.FilterSum | frontend/src/components/GrandWager.tsx:48-50 | summing the player's filtered bets gives the player's total stake |
| GrandWager.PlayerTotalBet | frontend/src/components/GrandWager.tsx:46-51 | zero without a round or player, otherwise the player's total stake in the round |
| GrandWager.PlayerChance | frontend/src/components/GrandWager.tsx:53-57 | the fixed `0%` is shown exactly when there is no round, no player or a zero pool; otherwise a share that lies in [0, 100] when the pool is the sum of the bets |
| GrandWager.ChanceMatchesWheel | frontend/src/components/GrandWager.tsx:53-63 | for a positive pool the panel's chance equals the wheel segment's percentage for the same player, and is 0 for a player who has not bet |
| GrandWager.PlaceRuleOnScreen | frontend/src/components/GrandWager.tsx:71-79 | on the game screen the place button is active exactly when the round is not finished, no winner is shown, 1 ≤ amount ≤ 10000, and the amount is within the balance (1000 while no player is known) |

## Left out

- Persistence is left out: MongoDB documents, `findOne`/`save`, unique indexes as queries, `createdAt`, bet timestamps. The stores are maps. The `await`s are not interleaved: each service call is one atomic step.
- Transport is left out: WebSocket broadcasting and the console logging. They have no effect on the state.
- Timers and intervals are left out: the round timer, the one-second updates and the `roundDelayMs` restart. They are the `DeadlineFired` and `RestartFired` events, enabled only while the source would have them armed.
- Randomness is left out: `Math.random`, `uuidv4` and `generateInviteCode`. The draw, the ids and the invite code are parameters. The draw is meant to lie in [0, sum of bets); the lemmas that need it say so.
- Read-only lookups are left out: `getRoom`, `getRoomByInviteCode`, `getPublicRooms`, `getAllActiveRooms`, `getCurrentRound`, `getRoomConfig`, `formatRound`, `formatRoom`. So is `joinRoomByInviteCode`, which is a lookup followed by `joinRoom`. The players' avatars fetched by `getBettingPlayers` are also left out.
- Amounts are `nat`. JavaScript numbers that are fractional, negative or not finite are not modelled as bet amounts. The schema's `minBet ≥ 1` and the invariant keep every admitted bet at 1 or more.
- Floating-point rounding is not modelled. Balances, commission and payout are exact reals.
- BetPanel's step sizes are parameters: the `log10`/`pow` derivation of `smallStep`/`largeStep` is not modelled.
- RoomService.PlaceBet: the bet's `id` and timestamp are not part of the model. The corrected call is taken to give each bet an id, so that the round's save succeeds.
- Room bounds `maxPlayers`, `minBet` and `maxBet` are integers. The schema stores JavaScript numbers, so fractional bounds are possible there; they are not modelled.
- BetPanel's `parseFloat(betAmount) || 0` is not modelled. The panel functions take the amount as a number.
- BetPanel.ModifyBet: the `toString` rendering of the new amount is not modelled.
- GrandWager.PlayerChance: the result is the unrounded percentage. The `toFixed(1)` rendering is left out.
- BetWheel.AggregatedBets: the order of object keys is taken to be insertion order. JavaScript would list array-index-like keys first. Player ids are never of that shape.
- Wheel geometry, the spin animation, the winner popup and all React rendering are left out.

## Findings

In both rows the save rejects its promise with a validation error, which the caller sees as an exception. The model reports that exception as the outcome `Failure(SchemaViolation)` and keeps the state the failed call leaves behind.

| source | as written | input that shows it | evidently intended | confidence | as-written member | corrected member |
|---|---|---|---|---|---|---|
| backend/src/services/RoomService.ts:37-50 | `createRoom` builds the room document without `roundDurationMs`. The room schema marks that field as required, with a minimum of 10000 (backend/src/models/Room.ts:28). So `room.save()` fails validation for every request. | name "Lobby", 10 players, bets 1–1000, public, creator "alice", with an unused id | store the round duration that the room-creation payload carries (shared/types.ts:103-109) on the room, so a valid request creates the room | medium, not executed | RoomService.CreateRoomAsWritten | RoomService.CreateRoom |
| backend/src/services/RoomService.ts:399-408 | `placeBet` appends a bet without an `id`. The bet schema marks `id` as required (backend/src/models/Round.ts:25). So `state.currentRound.save()` is refused, after the debit at lines 395-396 was already saved and the bet pushed into the in-memory round. The call then fails, and the activation check at lines 424-429 is never reached. | a two-member room with an empty waiting round; the first member bets 10 and the second bets 30 | give each bet an id, so the save succeeds, the call reports success and the second distinct bettor activates the round | medium, not executed | RoomService.PlaceBetAsWritten | RoomService.PlaceBet |
