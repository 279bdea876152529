# Gensoulkyo lobby: verified models

Gensoulkyo's lobby is one service under one lock: every public call is an atomic step over
maps of matches, rooms, tickets and players. This project models the parts of it where those
steps interact, and proves what they promise over every run:

| module | part of the lobby |
|---|---|
| `Settlement`, `SettlementRuns`, `SettlementLaws`, `SettlementSteps`, `SettlementRetries`, `SettlementVerdicts`, `SettlementRequests`, `SettlementAnswers`, `BossBars`, `MatchService` | five routes that end a match, the rewards they pay, the world-boss ledger, the boss bar |
| `MixedPool`, `Draft`, `DraftPicks`, `Hand` | the two-seat card draft of battle royale, its card pool, and the hands it feeds |
| `BattleTickets` | battle tickets, the allocation endpoint they point at, single consumption |
| `Rooms`, `RoomRuns`, `RoomLaws`, `RoomService` | rooms, queue tickets, host edits, and the match a full room forms |
| `CallbackNonce`, `SlidingWindow`, `VerificationCodes` | replay window of battle callbacks, the three rate windows, one-time codes |
| `DemUpload`, `DemLaws` | chunked upload of `.dem` replays |
| `Pbkdf2`, `Base64`, `PasswordHash` | password derivation (section 5.2 of RFC 8018) and the stored hash format |
| `GachaRolls`, `Gacha`, `GachaLaws`, `ShippedCatalog` | rolls, pity, all-or-nothing spending, the shipped catalog |
| `StatusList`, `Text`, `Bytes` | the PostgreSQL array literal of a status filter, string primitives |

Each operation is a function of the state, and the lemmas speak about those functions and about
runs of them. Where the source updates state in place, a class with the same fields and loops is
proved to compute exactly that function, so the lemmas hold of it. Hashes, signatures, random
numbers, the clock and the answer of a durable store are parameters of the steps. `dafny verify
dfyconfig.toml` checks everything.

What the proofs found out about the code:

* An ended match is ended again exactly by the expiry of its allocation, and exactly when its end
  time is unset, which a flight leaves it. So every fled match pays after fifteen minutes after all.
* A settle that the match store refuses is lost: the match is ended under the result's hash, so the
  retry of the battle server is answered as an accepted duplicate although nobody was paid. A client
  that settled the match itself is told on its retry that there is no settlement.
* A battle-server callback pays its players but never counts against the world boss.
* A draft report that arrives after the first pick can swap the seats. Then no pick completes the
  round, the new first seat is refused every card, and only the deadline ends the round.
* A battle ticket is still consumable at the instant of its expiry, which is when a second ticket of
  the seat can be issued: exactly then two tickets of one seat are usable.
* With a room store that hands out its own parameter map (the in-memory one), an edit whose boss,
  stage and player count pass but whose merged parameters are refused still changes the room, but
  not its tickets. Otherwise they always agree.
* The explicit player count of a room is undone by any later edit of its mode parameters when these
  still hold another count.
* A callback nonce is forgotten after exactly 600 seconds while a timestamp may be accepted twice
  600 seconds apart, and it is evicted by 4096 later ones however fresh its timestamp is. The
  timestamp test itself overflows for far-past timestamps.
* A replay upload checks the whole-file digest only if its first chunk declares one: a wrong digest
  that comes with a later chunk goes unnoticed and the file is stored.

Each failure comes with its exact condition and with a short run in which it happens.

## Model

| member | source | states |
|---|---|---|
| SettlementRuns.RunIsSound | runtime/core/service.go:4361-4436 | over every interleaving of all routes: the two ended flags tell the match's history, wallets equal the start plus all payouts, settlements on file show what was paid, world-boss health plus landed damage is constant and the defeat stamp is set exactly at zero |
| SettlementLaws.EachSeatPaidOnce | runtime/core/service.go:4379-4412 | a match that was ever scored paid each entry of its player list exactly once, any other match nobody, over every run |
| SettlementLaws.DistinctSeatsPaidAtMostOnce | runtime/core/service.go:2606-2611 | with distinct players no user is ever paid twice by one match |
| SettlementLaws.FlightsComeFirst | runtime/core/service.go:2279-2319 | a flight never follows another outcome, and only the allocation's expiry can settle a fled match |
| SettlementSteps.EndedAgainIff | runtime/core/service.go:2936-2959 | a step ends an ended match again exactly if it is the expiry of an allocation that outlived its term and the end time is unset, and that settle pays exactly if it is stored |
| SettlementSteps.FlightThenExpiryPays | runtime/core/service.go:2279-2319 | an abandon pays nobody, yet every seat of the match gains at least 100 points once the allocation outlives its term |
| SettlementRetries.FledMatchIsPaid | runtime/core/service.go:2284-2289 | a run that does so: created, ready, abandoned, expired after fifteen minutes |
| SettlementLaws.RewardsAreWorth | runtime/core/service.go:4647-4655 | a settlement is worth 100 points plus a tenth of the score, a key exactly for a win, a tenth of the grazes in dust |
| SettlementLaws.SettlePaysEachSeat | runtime/core/service.go:4752-4772 | a scored settle credits every seat with its own settlement and leaves every other wallet alone |
| SettlementVerdicts.ScoreSettles | runtime/core/service.go:4379-4412 | every settle by score files for each seat the verdict it deserves and its score: a felled instance boss wins for all if somebody is connected, own damage wins against the world boss, elsewhere a shared top score draws and an unshared one wins; a key goes exactly to the winners |
| SettlementVerdicts.ClientSettlesByScore | runtime/core/service.go:2591-2620 | so does the settle a player asks for |
| SettlementVerdicts.ResultSettlesByScore | runtime/core/service.go:3240-3278 | so does an accepted signed result |
| SettlementVerdicts.ExpirySettlesByScore | runtime/core/service.go:2936-2959 | so does the expiry of an allocation after fifteen minutes |
| SettlementVerdicts.SettleFilesReplay | runtime/core/service.go:4403-4412 | a stored settle files for every seat a replay with its settlement and end time, under the key no other player shares |
| SettlementLaws.AbandonVerdicts | runtime/core/service.go:2327-2374 | an abandon records the leaver as fled and everybody else as winner, with no reward and no wallet moved |
| SettlementRequests.AbandonMarks | runtime/core/service.go:2327-2374 | who abandons is marked as gone for good, at the clock of the call |
| SettlementLaws.CallbackVerdicts | runtime/core/battle_result_callback.go:268-300 | an accepted callback makes the named seat the one winner, or the match a draw if it names none |
| SettlementSteps.NamedWinnerIsSeated | runtime/core/battle_result_callback.go:200-212 | a nonblank winner of an accepted callback is always a seated user of the match |
| SettlementSteps.NamedPlayerWins | runtime/core/battle_result_callback.go:103-107 | and that user is recorded as the winner |
| SettlementAnswers.WinnerIsBehind | runtime/core/battle_result_callback.go:302-313 | the winner of a callback is the user behind the roster id it names, the last seat with that id |
| SettlementAnswers.ReportedDamage | runtime/core/battle_result_callback.go:109-128 | a callback overwrites a player's damage by the last positive report of it and changes nothing else of a player |
| SettlementAnswers.CallbackAnswered | runtime/core/battle_result_callback.go:58-101 | a callback is accepted, repeated or refused exactly by mode, hash, roster, winner and status, and otherwise changes nothing |
| SettlementAnswers.ResultAnswered | runtime/core/service.go:3190-3262 | a signed result is accepted, repeated or refused exactly by mode, server, roster, hash and status, and otherwise changes nothing |
| SettlementLaws.RunIsFinal | runtime/core/service.go:2606-2611 | whatever follows, an ended match keeps status and hash, and a settled one its end time and settlements |
| SettlementLaws.ReplayedResultIsHarmless | runtime/core/service.go:3190-3290 | replaying an accepted signed result after any run changes nothing; it is a duplicate, unless the match moved to another battle server, which refuses it |
| SettlementLaws.ReplayedCallbackIsHarmless | runtime/core/battle_result_callback.go:88-101 | replaying an accepted callback after any run is a duplicate and changes nothing |
| SettlementRetries.ResultPaysIffStored | runtime/core/service.go:3240-3290 | a signed result that passes its checks on a running match pays exactly if the store took it, and its retry is a duplicate either way |
| SettlementRetries.CallbackPaysIffStored | runtime/core/battle_result_callback.go:82-155 | so does a callback |
| SettlementRetries.ClientPaysIffStored | runtime/core/service.go:2591-2620 | a client's settle pays exactly if the store took it; its retry shows the settlement, or that there is none |
| SettlementRetries.RefusedSettleIsLost | runtime/core/service.go:4361-4366 | a run in which the store refuses a result, nobody is paid, and the retry is a duplicate |
| SettlementLaws.LostIsLast | runtime/core/service.go:2949-2957 | a lost settle is the last outcome of its match and the match never pays anybody |
| SettlementLaws.SweepIsRun | runtime/core/service.go:2936-2959 | one sweep over the allocations in any order is a run of single expiries, so every run law covers it |
| SettlementLaws.InputScores | runtime/core/service.go:4071-4112 | the points and grazes an input adds, over all combinations of its flags |
| SettlementLaws.InputDamages | runtime/core/service.go:4091-4110 | an input deals 35 for a bomb, then the card's damage, then 4 for a shot; each counts whole for the player if the boss survived what came before, and the bar loses them down to zero |
| SettlementRequests.InputAcceptedIff | runtime/core/service.go:2229-2262 | an input counts exactly in a running match of a connected player and moves nothing but that player's counts, the tick and the bar |
| SettlementRequests.NewMatch | runtime/core/service.go:3349-3448 | a new match seats its known participants as often as they are named, unready, under their roster ids, with the boss health of the room, else the catalog, else the world boss or the mode |
| SettlementRequests.LastReadyStarts | runtime/core/service.go:2140-2170 | the call that readies the last player starts the match, and no other does |
| SettlementRequests.ReturnUndoesDrop | runtime/core/service.go:2376-2460 | a dropped player may return for thirty seconds, and then the match is as before |
| SettlementRequests.BindRestartsTerm | runtime/core/lobby_bridge.go:14-69 | a bind names the server whose results count and starts the fifteen minutes of the allocation anew |
| SettlementAnswers.RowRules | runtime/core/battle_events.go:214-268 | which rows a batch may hold, kind by kind |
| SettlementAnswers.BatchAnswered | runtime/core/battle_events.go:88-170 | a batch is taken whole or not at all, and ends the match as a flight exactly if it says that everybody is gone while a seat was dropped without having abandoned |
| SettlementAnswers.MutualFlight | runtime/core/battle_events.go:148-165 | then every seat has fled and none is rewarded |
| BossBars.RunIsMetered | runtime/core/service.go:4594-4619 | in every reachable state, unless a callback overwrote the damage, the boss bar is max(0, full health minus damage dealt), and a finalized match landed exactly what its bar lost |
| BossBars.EndingLandsTheBar | runtime/core/service.go:4594-4619 | settling by score and fleeing both land, once, what the match's bar lost as far as the world boss still has it |
| BossBars.CallbackSparesWorldBoss | runtime/core/battle_result_callback.go:268-300 | a callback settlement changes neither the world boss nor its ledger |
| SettlementSteps.RunKeepsBoss | runtime/core/service.go:4594-4619 | over every run a match is finalized exactly by a stored flight or a stored settle other than a callback of a world-boss match, and every finalized match has its hit |
| SettlementSteps.StampStays | runtime/core/service.go:4601-4610 | once the defeat stamp is set the world boss never changes again |
| SettlementVerdicts.FellingStepMarks | runtime/core/service.go:4601-4612 | the step that fells the world boss marks it with its own clock and the match it ended, and lands all the health that was left |
| SettlementSteps.StampNamesTop | runtime/core/simulation.go:336-350 | over every run the player on the defeat stamp dealt the most damage of the stamped match and has the smallest id among equals |
| BossBars.TopDamageIsTop | runtime/core/simulation.go:336-350 | the scan names the first player in its order whose damage nobody exceeds |
| BossBars.OneWinner | runtime/core/service.go:4368-4401 | outside boss modes a tie at the top makes every seat a draw, otherwise exactly the one top seat wins |
| MatchService.WinnerByScore | runtime/core/service.go:4368-4378 | the loop's draw flag is set exactly when two seats share the highest score, and otherwise its winner is the leading user |
| MatchService.TotalDamageDealt | runtime/core/simulation.go:328-334 | the sum over the player map is the same in any iteration order |
| MatchService.SameStringSet | runtime/core/service.go:7493-7521 | true exactly when both lists hold the same trimmed nonblank strings, counted |
| MatchService.Service.SettleByScore | runtime/core/service.go:4361-4436 | the in-place settle, winner loop included, is the settle step, store refusal included |
| MatchService.Service.SettleFromWinner | runtime/core/battle_result_callback.go:268-300 | the in-place settle by a named winner is the settle step without the mode's final result |
| MatchService.Service.SettleFlee | runtime/core/service.go:2279-2319 | the in-place flight is the flight step: nothing if already ended, no rewards, end time unset |
| MatchService.Service.FinalizeModeResult | runtime/core/service.go:4594-4619 | the in-place finalization strikes the world boss once per match |
| MatchService.Service.SubmitBattleResult | runtime/core/service.go:3190-3290 | every check, duplicate and settle of a signed result |
| MatchService.Service.ApplyBattleResultCallback | runtime/core/battle_result_callback.go:58-155 | every check, duplicate, damage overwrite and settle of a callback |
| MatchService.Service.SettleMatchOf | runtime/core/service.go:2591-2620 | the client settle answers with the settlement on file and marks duplicates |
| MatchService.Service.AbandonMatch | runtime/core/service.go:2327-2374 | the abandon drops the player and ends the match as a flight |
| MatchService.Service.SubmitBattleEvents | runtime/core/battle_events.go:88-170 | after the rate limiter's answer, every row of a batch is appended or none, and the all-gone row ends the match as a mutual flight exactly when a drop is unresolved |
| MatchService.Service.ExpireStaleAllocations | runtime/core/service.go:2936-2959 | the loop settles exactly the listed allocations that outlived their time and have no end time |
| MatchService.Service.SubmitInputOf | runtime/core/service.go:2229-2262 | an input is applied only to a running match by a connected player |
| MatchService.Service.CreateMatch | runtime/core/service.go:3349-3448 | players, seats and boss health of a new match, with the room's health over the catalog's over the mode's |
| MixedPool.PoolIsMixed | runtime/core/battle_draft.go:65-87 | the pool is strictly sorted and holds exactly the trimmed nonblank deck cards |
| MixedPool.PoolIgnoresOrder | runtime/core/battle_draft.go:65-87 | decks with the same cards give the same pool, whatever the order of players or cards |
| MixedPool.BuildMixedPool | runtime/core/battle_draft.go:65-87 | the collecting loop and the sort compute that pool |
| MixedPool.DrawDistinct | runtime/core/battle_draft.go:98-125 | for every hash the draw yields min(3, size) different pool cards |
| MixedPool.DrawTakesFirstFree | runtime/core/battle_draft.go:98-125 | each candidate stands at the first place, from where its number points, that no earlier candidate took |
| MixedPool.DrawCandidates | runtime/core/battle_draft.go:98-125 | the linear-probing loop terminates and finds, for each number, the first free place after it |
| Draft.RunIsCoherent | runtime/core/battle_draft.go:176-417 | in every reachable state: two different seated players, picks an injective choice of candidates by seats, no seat and no card granted twice in a round, sound hands |
| Draft.CardsMoveOnlyByGrant | runtime/core/battle_draft.go:360-390 | reports, picks and ticks reach a hand only through the one grant of the open round, which needs both picks or the deadline and gives each owner exactly its pick |
| Draft.GrantIsExact | runtime/core/battle_draft.go:363-390 | the grant gives every picker its card once and touches nobody else |
| Draft.DeadlineCloses | runtime/core/battle_draft.go:394-417 | a simulated tick at the deadline grants the round; two candidates give every seat a card, one candidate is still granted |
| Draft.AutoPickIsLeast | runtime/core/battle_draft.go:421-446 | the automatic pick is the least free candidate by drawn number, then by card id |
| Draft.SeatConfluence | runtime/core/battle_draft.go:199-273 | two players reporting the same boss at any ticks get the same seats, first tick, deadline and tie flag in both arrival orders |
| Draft.SeatsByDefeat | runtime/core/battle_draft.go:233-273 | the first seat is the earlier defeat, or the player earlier in id order on the same tick |
| DraftPicks.OpenedRound | runtime/core/battle_draft.go:176-231 | a new round seats its reporter first for thirty seconds before up to three different cards of the mixed pool |
| DraftPicks.SecondSeat | runtime/core/battle_draft.go:233-273 | the second defeat takes the free seat, first or second by the earlier tick or id, and a third changes nothing |
| DraftPicks.ReportAcceptedIff | runtime/core/battle_draft.go:130-218 | which reports are accepted, open a round, or are ignored |
| DraftPicks.PickAcceptedIff | runtime/core/battle_draft.go:280-321 | a pick is accepted exactly from the seat whose turn it is, for a candidate the first seat does not hold; a refused one changes nothing |
| DraftPicks.PickWritesAsked | runtime/core/battle_draft.go:304-321 | an accepted pick writes the card asked for, the named one or else the candidate at the given index, and no other pick moves |
| DraftPicks.PickCompletes | runtime/core/battle_draft.go:336-390 | it completes the round exactly when both seats hold a pick, and each owner gains the very card, in the hand if a slot is free and else at the end of the queue |
| DraftPicks.TimeoutPicks | runtime/core/battle_draft.go:394-417 | at the deadline the first seat gets its automatic pick before the second, and picks that were made stay |
| Draft.BlocksIff | runtime/core/battle_draft.go:251-263 | a round gets blocked exactly by a report that overtakes the only seat after it has picked |
| Draft.LateReportBlocks | runtime/core/battle_draft.go:251-255 | report, pick, earlier report: in any fresh match with a card this blocks the round |
| Draft.BlockHappens | runtime/core/battle_draft.go:251-255 | a match in which it happens |
| Draft.BlockedRefusesFirst | runtime/core/battle_draft.go:289-299 | in a blocked round the first seat is refused whatever it picks, and nothing changes |
| Draft.BlockedUntilDeadline | runtime/core/battle_draft.go:394-417 | a blocked round keeps its seats and grants nothing until a simulated tick at its deadline, which grants it |
| Draft.DraftMatch.ReportBossDefeat | runtime/core/battle_draft.go:130-218 | the in-place report opens, feeds or skips a round as the report step does |
| Draft.DraftMatch.PickCard | runtime/core/battle_draft.go:280-310 | the in-place pick with its two phases and the grant it may complete |
| Draft.DraftMatch.GrantDraft | runtime/core/battle_draft.go:363-390 | the loop over the two seats is the atomic grant |
| Draft.DraftMatch.ResolveDraftTimeout | runtime/core/battle_draft.go:394-417 | the loop of automatic picks, then the grant |
| Draft.DraftMatch.AutoDraftPick | runtime/core/battle_draft.go:421-446 | the scan over the free candidates returns the least one |
| Hand.GrantsEnterInOrder | runtime/core/battle_draft.go:460-480 | over every run of grants and plays the hand holds at most four, nothing waits beside a free slot, and granted cards enter the hand in grant order |
| Hand.PlayShape | runtime/core/service.go:4277-4317 | an accepted play removes exactly one card, admits the longest waiting card before any deck card |
| Hand.PlayCounts | runtime/core/service.go:4153-4156 | hand plus waiting cards change by exactly the played card and the cards drawn |
| Hand.PlayedIff | runtime/core/service.go:4277-4293 | a request is accepted exactly for a known card in the slot, off cooldown and payable; a refused one changes nothing |
| Hand.PlayDraws | runtime/core/service.go:4297-4300 | after an accepted play the kept cards are followed by exactly the nonblank deck cards at the cyclic positions from the old cursor to the new one: one look for the play and one for each draw of the card, while the hand has room |
| Hand.PlayDrawsNext | runtime/core/service.go:5308-5319 | with nothing waiting, the deck card at the cursor enters the hand |
| Hand.PlayPays | runtime/core/service.go:4294-4296 | a play pays its cost down to zero, gains its energy up to ten, and starts its cooldown |
| Hand.EnergyStays | runtime/core/service.go:4120-4124 | over every run of grants and plays the energy stays between zero and ten |
| Hand.CooldownHolds | runtime/core/service.go:4288-4296 | over every run two plays of one card are at least its cooldown apart |
| Hand.OpeningShape | runtime/core/service.go:5246-5257 | the opening hand is the nonblank cards, in order, of the part of the deck before the cursor: at most four, and four while deck cards remain |
| Hand.PlayerState.PlayCard | runtime/core/service.go:4114-4157 | the in-place play pays, empties the slot, refills and draws as the play step does |
| BattleTickets.RunIsCoherent | runtime/core/lobby_bridge.go:48-62 | in every reachable state each issued ticket carries the match's current server, endpoint and config, a later ticket of a seat is issued only once the earlier has run out, and each ticket ends at most once |
| BattleTickets.OneLiveTicketPerSeat | runtime/core/service.go:6706-6732 | no seat ever holds two issued, unexpired tickets |
| BattleTickets.IssueHandsLive | runtime/core/service.go:6625-6700 | a player of the match is handed a ticket exactly if a live one exists or the deck is accepted; it is a live ticket of the own seat at the current endpoint, for at most sixty seconds |
| BattleTickets.FirstUseIsCurrent | runtime/core/service.go:3110-3160 | a first consumption happens in time, on a ticket that points where its match runs now and that had not ended before |
| BattleTickets.UsedIff | runtime/core/service.go:3041-3165 | a request is answered with a ticket exactly when every given field names it and it is issued and in time, or consumed before |
| BattleTickets.EndedStaysEnded | runtime/core/lobby_bridge.go:180-202 | after any run a consumed ticket is only answered as duplicate or refused, a revoked or expired one only refused |
| BattleTickets.TwoUsableIff | runtime/core/service.go:3133-3136 | two issued tickets of a seat are both consumable exactly at the instant the first runs out, if the second was issued then |
| BattleTickets.TwoUsableHappens | runtime/core/service.go:6722-6725 | that instant exists, for every match and player |
| BattleTickets.InvalidateKeeps | runtime/core/lobby_bridge.go:180-202 | retiring lets the allocation of the match move anywhere without leaving a stale issued ticket |
| BattleTickets.BoundIff | runtime/core/lobby_bridge.go:14-40 | which binds are granted |
| BattleTickets.BindMoves | runtime/core/lobby_bridge.go:40-69 | a bind runs the match at the named endpoint on the named server, or one named after the match, moves no other allocation and leaves the match no issued ticket |
| BattleTickets.BindThenIssue | runtime/core/lobby_bridge.go:48-62 | the next ticket of every player is a new one that sends the player there |
| BattleTickets.ReportMoves | runtime/core/lobby_bridge.go:89-170 | an accepted report moves the endpoint alone, marks it reported, and retires exactly if it moved |
| BattleTickets.IssuedTicket | runtime/core/service.go:6644-6700 | a new ticket carries the names, the nonce and the allocation of its request, for sixty seconds from now |
| BattleTickets.FirstUseWrites | runtime/core/service.go:3133-3160 | a first use marks its own row consumed at the clock of the request and touches no other |
| BattleTickets.SweptIff | runtime/core/ticket_store.go:150-160 | the sweep expires an issued row exactly if it ran out before the given time |
| BattleTickets.TicketDesk.IssueTicket | runtime/core/service.go:6625-6700 | the in-place issue hands out the live ticket or a new one at the current allocation, or refuses the deck |
| BattleTickets.TicketDesk.InvalidateTickets | runtime/core/lobby_bridge.go:180-202 | the loop revokes exactly the issued rows of the match |
| BattleTickets.TicketDesk.BindBattleServer | runtime/core/lobby_bridge.go:14-69 | the in-place bind moves the allocation and retires its tickets |
| BattleTickets.TicketDesk.ReportAgentEndpoint | runtime/core/lobby_bridge.go:89-170 | the in-place report retires tickets only when the endpoint moves |
| BattleTickets.TicketDesk.ConsumeTicket | runtime/core/service.go:3041-3188 | the in-place consumption with every refusal |
| RoomRuns.RunIsOrderly | runtime/core/service.go:1417-1693 | in every reachable state a waiting room has at least one seat and fewer than it needs, seats distinct users with queued unmatched tickets, seats its host, and agrees with its tickets on boss, player count and set stage; with a store that keeps its own map also on the mode parameters |
| RoomRuns.ParamsAgreeIff | runtime/core/room_options.go:133-166 | with any store, a step keeps rooms and tickets in agreement on the mode parameters exactly if it is not a host edit whose boss, stage and player count pass and whose merged parameters differ and are refused, in a store that shares its map |
| RoomRuns.RefusalMovesParamsIff | runtime/core/room_options.go:70-166 | an edit is refused with the parameters already moved exactly if its columns pass and the merge differs and breaks the player count, tick or health rules or asks for fewer seats than are taken |
| RoomRuns.LeakHappens | runtime/core/room_options.go:128-133 | a created room and a refused edit of its tick limit in which it happens |
| RoomRuns.EnterFormsIff | runtime/core/service.go:1644-1680 | a join forms the match exactly when it takes the last seat the room needs |
| RoomRuns.UpdateFormsIff | runtime/core/room_options.go:232-259 | an edit forms the match exactly when it lowers the need to the seats taken |
| RoomRuns.FormedCarriesOptions | runtime/core/service.go:3292-3330 | the match takes every seat of the room and its tickets carry the room's options |
| RoomRuns.JoinNeverFull | runtime/core/service.go:1607-1609 | the room-full refusal is never met |
| RoomRuns.HandoverToFirst | runtime/core/service.go:4017-4046 | when the host leaves, the first remaining seat hosts and the rest of the room is unchanged |
| RoomRuns.StaleCountReturnsIff | runtime/core/room_options.go:153-166 | an edit of other mode parameters sets the player count to the one the parameters hold, whenever they hold one |
| RoomRuns.StaleCountReturns | runtime/core/room_options.go:136-147 | a room of two set to four seats falls back to two by an edit of another parameter |
| RoomLaws.EditStores | runtime/core/room_options.go:70-166 | an edit is accepted exactly if its parts are all right, and then the room holds exactly the host's choices |
| RoomLaws.EditReachesSeats | runtime/core/room_options.go:168-189 | an accepted edit reaches the ticket of every seat |
| RoomLaws.EditRefused | runtime/core/room_options.go:41-66 | a refused edit reaches no ticket and nothing of the room but leaked parameters |
| RoomLaws.LastEditCounts | runtime/core/room_options.go:118-127 | of several edits of one parameter the last counts, keys trimmed and blank ones ignored |
| RoomLaws.NumberRules | runtime/core/room_options.go:276-294 | which numbers the parameters may hold |
| RoomLaws.RoomCreated | runtime/core/service.go:1417-1550 | which create requests are accepted, and the room and ticket they leave |
| RoomLaws.SeatTaken | runtime/core/service.go:1552-1693 | which joins are accepted, and the seat and ticket they add |
| RoomLaws.WaitsIff | runtime/core/service.go:3923-3938 | a user waits exactly as the holder of a queued ticket of a waiting room |
| RoomLaws.SeatReleased | runtime/core/service.go:4017-4046 | a departure cancels the seat's ticket and no other, keeps the other seats in order and closes an empty room |
| RoomLaws.LeaveAnswered | runtime/core/service.go:1864-1899 | leaving a waiting room releases the user's seat, or says that there is none |
| RoomLaws.MatchedIsKept | runtime/core/service.go:1864-1899 | a matched room keeps its seats, and the answer says why |
| RoomLaws.CancelAnswered | runtime/core/service.go:2036-2085 | which tickets may be cancelled |
| RoomService.RoomDesk.CreateRoom | runtime/core/service.go:1417-1550 | the in-place create with its retry for a user who already waits |
| RoomService.RoomDesk.HasOpenSeat | runtime/core/service.go:3923-3938 | the scan over the waiting rooms, in any order, finds a seat exactly if there is one |
| RoomService.RoomDesk.JoinRoom | runtime/core/service.go:1552-1693 | the in-place join with every refusal and the match it may form |
| RoomService.RoomDesk.CancelRoomTicket | runtime/core/service.go:4017-4046 | the in-place departure with closing and handover |
| RoomService.RoomDesk.LeaveRoom | runtime/core/service.go:1864-1899 | leaving releases the user's seat or says why not |
| RoomService.RoomDesk.CancelTicket | runtime/core/service.go:2036-2085 | cancelling a room ticket releases its seat or says why not |
| RoomService.RoomDesk.UpdateRoomOptions | runtime/core/room_options.go:41-189 | the in-place edit: host only, waiting only, written through to the tickets, forming the match if full |
| RoomService.RoomDesk.FormMatchIfRoomFull | runtime/core/room_options.go:232-259 | the in-place match formation |
| CallbackNonce.AcceptedIffNotRemembered | runtime/core/battle_callback_freshness.go:130-166 | over every run with a nondecreasing clock the bounded window accepts a nonce exactly if the full log of accepted nonces does not remember it |
| CallbackNonce.AcceptedNonceIsRefused | runtime/core/battle_callback_freshness.go:130-166 | an accepted nonce is refused strictly before 600 seconds have passed unless 4096 others were accepted since |
| CallbackNonce.FreshIff | runtime/core/battle_callback_freshness.go:170-180 | the 64-bit timestamp test is the distance test, with exactly the overflow exceptions listed |
| CallbackNonce.FarPastTimestampIsFresh | runtime/core/battle_callback_freshness.go:170-180 | a far-past timestamp that passes the test |
| CallbackNonce.MaterialBinds | runtime/core/battle_callback_freshness.go:36-60 | the signed octets determine timestamp, nonce and body |
| CallbackNonce.ReplayIff | runtime/core/battle_callback_freshness.go:106-116 | an accepted callback can be accepted again exactly in the 600th second with a timestamp 300 seconds ahead, or after 4096 later nonces while its timestamp is fresh |
| CallbackNonce.ReplayAtRetention | runtime/core/battle_callback_freshness.go:138-148 | one callback accepted at 0 and again at 600 seconds |
| CallbackNonce.ReplayAfterEviction | runtime/core/battle_callback_freshness.go:130-166 | one nonce accepted again at the same instant after 4096 others |
| CallbackNonce.FreshAfterRetention | runtime/core/battle_callback_freshness.go:30-34 | which timestamps outlast the nonce's retention |
| CallbackNonce.DropExpired | runtime/core/battle_callback_freshness.go:138-148 | the pruning loop stops at the first young entry and still equals filtering by age |
| CallbackNonce.AllowNonce | runtime/core/battle_callback_freshness.go:130-166 | map and queue stay in agreement, sorted, at most 4096 long, and decide as the specification |
| CallbackNonce.CallbackVerifier.Verify | runtime/core/battle_callback_freshness.go:80-117 | a callback reaches its server's window only after signature and timestamp pass |
| SlidingWindow.KeptIsRecentLog | runtime/core/battle_events.go:195-212 | the kept list is exactly the recent part of everything admitted |
| SlidingWindow.LimitIsExact | runtime/core/battle_events.go:195-212 | the window refuses exactly when the limit is truly reached |
| SlidingWindow.RecentExact | runtime/core/battle_events.go:200-204 | what counts as recent: every time less than a window old, as often as it occurs |
| SlidingWindow.NoWindowExceedsLimit | runtime/core/room_creation_limiter.go:47-56 | no window, wherever it ends, holds more admissions than the limit |
| SlidingWindow.TableProjects | runtime/core/battle_events.go:195-212 | in a run over the keyed table each key's window and admissions are those of its own requests |
| SlidingWindow.NoKeyExceedsLimit | runtime/core/battle_events.go:195-212 | so no key is ever admitted more often than the limit inside one window |
| SlidingWindow.PruneInPlace | runtime/account/service.go:389-398 | the in-place filter keeps exactly the recent entries |
| SlidingWindow.BattleEventLimiter.AllowSubmit | runtime/core/battle_events.go:195-212 | thirty batches a second for each server, the table being that of all arrivals so far |
| SlidingWindow.RoomCreationLimiter.AllowRoomCreation | runtime/core/room_creation_limiter.go:58-79 | the creation limit of one user, the table being that of all arrivals so far |
| VerificationCodes.CodesAreSingleUse | runtime/account/service.go:363-386 | over every run a code is redeemed at most once and guessed wrong at most as often as allowed |
| VerificationCodes.RedeemedIff | runtime/account/service.go:363-386 | while the code of a send is pending, a guess redeems it exactly in time and with its digest, is late exactly after its term, and is wrong otherwise, at the allowed number for good |
| VerificationCodes.RedeemedByItsCode | runtime/account/service.go:363-386 | over every run a serial number is redeemed only in time, by a guess with the digest of the code sent under it |
| VerificationCodes.StaysPendingIff | runtime/account/service.go:354-386 | what ends a pending code |
| VerificationCodes.SendAnswers | runtime/account/service.go:320-330 | a send is refused exactly by the hourly sends so far or by the age of a pending code |
| VerificationCodes.SendsAreWindows | runtime/account/service.go:316-349 | over every run of sends, cancels and redeems the send histories are the sliding windows of the sends asked for |
| VerificationCodes.HourlyLimitHolds | runtime/account/service.go:320-324 | so no address is ever sent more codes within an hour than the hourly limit |
| VerificationCodes.CodeTable.Begin | runtime/account/service.go:316-349 | the send with its cooldown and window |
| VerificationCodes.CodeTable.Cancel | runtime/account/service.go:354-360 | a failed send withdraws only its own code |
| VerificationCodes.CodeTable.Consume | runtime/account/service.go:363-386 | the redeem with expiry, attempts and removal |
| DemUpload.UploadIsOrderIndependent | runtime/core/dem_store.go:438-534 | in any arrival order, with any repeats and other traffic, the request that brings the last chunk completes, later ones are duplicates, none is rejected, and the stored octets are the file |
| DemUpload.StoredForever | runtime/core/dem_store.go:109-125 | a stored record never changes |
| DemUpload.CompletesOnce | runtime/core/dem_store.go:551-587 | at most one request is answered as the completion |
| DemUpload.OtherMatchUntouched | runtime/core/dem_store.go:419-451 | a request speaks about its own match only |
| DemLaws.RunAsSent | runtime/core/dem_store.go:438-588 | over every run whatever is staged or stored was sent, chunk by chunk, with chunk digests that held, and a stored file has the size and digest its upload was opened with |
| DemLaws.FinishStoresIff | runtime/core/dem_store.go:536-575 | a file is stored exactly if it has the declared size, the digest its opening declared, and a readable header |
| DemLaws.HeaderIff | runtime/core/dem_store.go:351-368 | a header is read exactly behind the magic and a little-endian length that fits the file |
| DemLaws.ScreenRules | runtime/core/dem_store.go:425-466 | which requests are refused before any staging |
| DemLaws.StoredAnswers | runtime/core/dem_store.go:438-451 | a match that has its file takes no other, and answers with the name of the request or else of the file |
| DemLaws.ConflictsKeepUpload | runtime/core/dem_store.go:479-507 | other metadata, or other octets for a chunk, are refused and leave the upload as it was |
| DemLaws.WrongDigestStoredIff | runtime/core/dem_store.go:468-484 | a last chunk with a wrong whole-file digest goes through exactly if the upload was opened without one |
| DemLaws.WrongDigestStored | runtime/core/dem_store.go:468-484 | two requests in which it does |
| DemUpload.DemService.AssembleInOrder | runtime/core/dem_store.go:529-534 | the assembly loop concatenates the chunks in index order |
| DemUpload.DemService.SubmitChunk | runtime/core/dem_store.go:419-588 | the in-place submit with every rejection |
| Pbkdf2.Pbkdf2SHA256 | runtime/account/password.go:140-173 | the buffer-reusing loop returns the first octets of T_1, T_2, ... of section 5.2 of RFC 8018, for every password, salt, count and length |
| Pbkdf2.Int4Value | runtime/account/password.go:151-155 | below 2^32 the four octets of the block index denote the index |
| Base64.DecodeEncode | runtime/account/password.go:106-135 | decoding undoes unpadded base64 (section 4 of RFC 4648) for every octet string |
| Base64.LineEndsAreSkipped | runtime/account/password.go:106-135 | a line end inside the text changes nothing |
| PasswordHash.DecodeEncode | runtime/account/password.go:106-135 | the parser returns the printed triple exactly for nonempty salt and key and a count from 1 to 5,000,000, and nothing otherwise |
| PasswordHash.ReadIff | runtime/account/password.go:106-135 | a text is read as a stored hash exactly if it spells a storable one: the algorithm, a count, a salt and a key between dollar signs |
| PasswordHash.MatchesHashOf | runtime/account/password.go:72-94 | a fresh hash fits exactly the passwords with the same derived key, so always its own |
| PasswordHash.HashPassword | runtime/account/password.go:60-82 | exactly the passwords of at least 8 characters and at most 256 octets are hashed, and the hash verifies |
| PasswordHash.VerifyPassword | runtime/account/password.go:87-94 | verification compares the derived keys |
| GachaRolls.RollBand | runtime/core/gacha.go:266-289 | a roll lands in a tier of positive weight, in the band its weight gives it |
| GachaRolls.BandWidths | runtime/core/gacha.go:266-289 | the bands lie one after another, each as wide as its weight |
| GachaRolls.PityStep | runtime/core/gacha.go:293-312 | pity never lowers a roll and its counters track the draws since the last rare and epic |
| GachaRolls.PityOnlyWhenDue | runtime/core/gacha.go:293-312 | pity lifts a roll only when its rule is due after the current dry spell, to epic first and else to rare |
| GachaRolls.Guaranteed | runtime/core/gacha.go:342-350 | the guaranteed slot is rare or better |
| GachaRolls.GuaranteedIsFirst | runtime/core/gacha.go:342-350 | it is the first of 200 rolls that is rare or better, and rare if none is |
| GachaRolls.RollRarity | runtime/core/gacha.go:266-289 | the cursor loop computes the roll |
| Gacha.PityPromise | runtime/core/service.go:5594-5613 | over every run each window of a pool as long as its pity rule holds a rare, or an epic, or better |
| Gacha.PullIsAllOrNothing | runtime/core/gacha.go:568-691 | an opening is granted exactly for a known pool, one or ten slots and 200 or 1800 gems, then cannot fail, pays one faith a slot, loses no shot, and ends a ten-pull with rare or better |
| Gacha.ExchangeUnlocksOne | runtime/core/gacha.go:695-736 | an exchange is granted exactly for a locked shot and at least 150 faith; it costs 150 and adds exactly that shot as exchanged, otherwise nothing changes |
| GachaLaws.OpeningUnlocks | runtime/core/gacha.go:620-680 | every slot shows a shot of its tier, new exactly if it was neither owned nor drawn before, and the roster gains exactly the shots shown, with a dupe for each repeat |
| GachaLaws.OpeningIsRecorded | runtime/core/gacha.go:596-619 | the history of the pool gains exactly the tiers shown, and no other pool's |
| GachaLaws.SlotRolls | runtime/core/gacha.go:600-612 | a slot is a plain roll but for the last of ten |
| GachaLaws.SlotIsLifted | runtime/core/gacha.go:293-312 | and is lifted only when a rule of the pool is due |
| Gacha.BooksBalance | runtime/core/gacha.go:596-659 | over every run faith is the slots opened less 150 an exchange, and neither balance is negative |
| Gacha.OwnedAndLockedPartition | runtime/core/gacha.go:460-485 | owned and locked shots partition the table after every run |
| Gacha.GachaAccount.GachaPull | runtime/core/gacha.go:568-691 | the in-place opening is the pull step |
| Gacha.GachaAccount.ExchangeFaith | runtime/core/gacha.go:695-736 | the in-place exchange is the exchange step |
| ShippedCatalog.ShippedIsWellFormed | runtime/core/gacha.go:58-76 | the shipped pools and 52 shots meet every assumption of the gacha laws |
| StatusList.ParseLiteral | runtime/core/room_store.go:564-592 | PostgreSQL (section 8.15.2 of its documentation) reads back exactly the trimmed nonblank statuses, whatever quotes, backslashes, commas or braces they hold |
| StatusList.StatusListForSQL | runtime/core/room_store.go:564-592 | the two loops print that literal |
| StatusList.FilteredMembers | runtime/core/room_store.go:564-592 | a status is requested exactly if it is the trimming of some nonblank entry |
| StatusList.FilteredInOrder | runtime/core/room_store.go:564-592 | the statuses keep order and repeats |

## Left out

- HTTP, WebSocket and Nakama adapters, SMTP, process spawning and SQL statements: outside the model.
- Sessions, roles, forbidden client fields, audit trails, notifications and snapshots: they guard or report, and move none of the modelled state.
- Bullets, geometry and the other floating-point simulation: a bullet contact is a step that changes score and grazes; card effects other than draws, energy and damage are not modelled.
- Daily quest progress, certification rank, match records and season rows: further consequences of a settlement with no second writer.
- Matches, tickets and rooms are values held in the service's maps, not objects of their own, so aliasing between them is modelled only where it matters (the shared parameter map of rooms).
- Restart of the lobby process and reloading from durable rows: every run starts and stays in one process.
- Store failures are modelled for settlements only; rooms, tickets and uploads assume their store answers.
- Ids from counters and room codes are parameters that must be new; signature, version and replay-summary checks of results are one parameter, and so are deck, loadout and entry checks of rooms.
- The queue of `JoinQueue`, rematches, and the three-a-day attempts of the world boss: not part of this model.
- Match length in ticks is not claimed to agree between a room and its tickets, since a guest's ticket carries none; a stage that was cleared is not claimed either.
- The event log is unbounded here, and a battle event's reason is measured in characters rather than bytes.
- In the upload, decoding of base64 and of the replay header are parameters of the model, and the record's user and time fields are left out; nonces are measured in characters.
- Card inventory and dust of card pulls, and the names of legendary cards: no shipped pool rolls a legendary.
- StatusList.StatusListForSQL: follows the code, which prints `{}` for an empty filter where its comment promises no filter value.
- Hand.EnergyStays: energy that accrues with the ticks is not modelled, so energy moves by plays only.
- CallbackNonce.AcceptedNonceIsRefused: stated strictly before 600 seconds, since the code drops a nonce at exactly 600; what happens then is CallbackNonce.ReplayIff.
- MatchService.Service.SubmitBattleEvents: does not route `boss_defeated` rows into the draft (runtime/core/battle_events.go:143-147), which is its own state machine here; a routed row is a report step of Draft, and the limiter whose answer it takes is SlidingWindow.BattleEventLimiter.
- Draft.SeatConfluence: says nothing about the candidates, which are drawn at the first arrival and may differ.
