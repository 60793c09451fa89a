# Betting rooms: a Dafny model of settlement, rounds and bets

The system is a NestJS back end for a number-betting game. Players join a
room, and each room runs rounds one after another. In a round a player bets
an amount on a digit or on `odd`/`even`. When the round closes, the room
service settles it:

- it totals the stakes and groups them by choice;
- it pads the statistics to the ten digits 0..9;
- it sorts the digits by number of bets, then by stake, both descending;
- it picks the first digit whose payout (nine times its stake) stays
  within 90% of the total stake, or the head of the order when none does;
- it collects the room's bets on that digit or on its parity.

The bet service places bets, checks users and wallets, and adds up a
user's winnings over closed rounds. The user service adds up a user's
winnings over every room.

The model keeps the services' own structure:

- `Domain`: the documents (room, round, bet, user) and the store of their
  collections.
- `BetQueries`: the bet-collection filters, the user and wallet checks, and
  the rule that decides whether a bet matches a winning number.
- `Aggregation`: the `reduce` that builds the per-choice statistics.
- `Selection`: `selectWinner` as an array algorithm. It pads, merges, sorts
  in place by insertion, and scans. A reference predicate `IsSelected`
  says which digit must win.
- `Settlement`: `settleBets` over a snapshot of the store.
- `Winnings` and `UserService`: the two winnings loops, each proved equal
  to one payout sum `Total`.
- `Lifecycle`: the store transitions (create a room, create a round, close
  a round, place a bet) as functions from the store before to the store
  after. It also holds the store invariant, the history projection, and
  lemmas about the code as written.
- `Store`: class `Db`, whose collections the services update in place.
  Each method performs the matching `Lifecycle` transition and keeps the
  invariant.

Document ids are natural numbers drawn from one fresh-id counter. Stakes
are integers. Over exact numbers the cap `amount * 9 <= total * 0.9`
becomes `10 * amount <= total`.

The results that rely on non-negative stakes (`Selection.SelectionFitsCap`,
`Selection.SomeDigitWithinCap`, `Winnings.TotalNonNegative`) assume
something the services do not enforce. `placeBet` never checks the amount,
so a negative stake can be stored. With one, the fallback can be reached:
5 on digit 0 and -10 on `odd` give a total of -5, and no digit fits the cap.

Several facts about the code as written are proved as lemmas:

- Settlement passes the round id to the by-room bet query. In a
  well-formed store that query finds no bets, so the winner is always 0
  (`Lifecycle.SettlementSelectsZero`).
- No operation records a round's winning number, winners or multiplier,
  so every user's winnings are 0 (`Lifecycle.WinningsAlwaysZero`).
- No operation appends to a room's `rounds`, so every room history is
  empty (`Lifecycle.HistoryAlwaysEmpty`).

## Model

| member | source | states |
|---|---|---|
| BetQueries.Filter | src/bet/bet.service.ts:100-102 | a query returns each stored bet that matches it exactly as many times as it is stored, and no other bet; nothing when no bet matches |
| BetQueries.BetsForRoom | src/bet/bet.service.ts:87-89 | the result holds exactly the stored bets with that room id, each as often as it is stored, and is empty when no bet carries it |
| BetQueries.ExactWinners | src/bet/bet.service.ts:91-94 | exactly the room's bets on the winning number, each as often as it is stored; no parity bet is among them |
| BetQueries.BetsByUser | src/bet/bet.service.ts:96-99 | exactly the user's stored bets, each as often as it is stored, so no bet is summed twice |
| BetQueries.BetsByRound | src/bet/bet.service.ts:140-142 | exactly the stored bets of the round, each as often as it is stored |
| BetQueries.RoomWinners | src/bet-room/bet-room.service.ts:249-264 | only the room's bets; when `isOdd` is the parity of the winning number, exactly the room's bets on that number or on its parity, each as often as it is stored, from every round of the room |
| BetQueries.Wins | src/bet/bet.service.ts:127-131 | `odd` wins exactly when JavaScript's truncating `winningNumber % 2` is non-zero, `even` exactly when it is zero, a number exactly when it equals the winning number |
| BetQueries.UserExists | src/bet/bet.service.ts:82-85 | a user exists exactly when the wallet check for that user succeeds, whatever the amount |
| BetQueries.CheckWallet | src/bet/bet.service.ts:104-110 | fails with "user not found" exactly when the user is unknown; otherwise true exactly when the wallet balance covers the amount |
| BetQueries.FindBet | src/bet/bet.service.ts:59-63 | the first stored bet with the same user, room and choice, or none exactly when no stored bet has that key |
| BetQueries.FindBetAppend | src/bet/bet.service.ts:59-72 | appending a bet keeps an earlier hit, and a bet with the key appended after a miss becomes the hit |
| Winnings.TotalAppend | src/bet/bet.service.ts:116-135 | the winnings of two bet lists together are the sum of their winnings |
| Winnings.TotalNonNegative | src/bet/bet.service.ts:125-133 | with non-negative stakes and multipliers, winnings are never negative |
| Winnings.OnlyClosedRoundsPay | src/bet/bet.service.ts:120-125 | bets whose round is missing or still open pay nothing |
| Winnings.ZeroMultipliersPayNothing | src/bet/bet.service.ts:132 | when every round's multiplier is 0 the winnings are 0 |
| Winnings.GetUserWinnings | src/bet/bet.service.ts:112-138 | the loop returns the payout sum over the user's bets: each matching bet of a closed round pays stake times multiplier |
| UserService.GetTotalUserWinnings | src/user/user.service.ts:44-71 | the same payout sum over the user's bets in every room, and 0 for a user without bets |
| Aggregation.TotalStake | src/bet-room/bet-room.service.ts:119 | with no negative stake, the total stake is never negative and no single stake exceeds it |
| Aggregation.KeyIndex | src/bet-room/bet-room.service.ts:128-133 | the entry kept for a choice, or none exactly when no entry has that choice |
| Aggregation.ReplaceEntry | src/bet-room/bet-room.service.ts:129-135 | updating one entry moves each per-choice and overall sum by exactly the change of that entry |
| Aggregation.AggregateBets | src/bet-room/bet-room.service.ts:119-147 | at most one entry per choice, and only for choices with at least one bet; each choice's entry holds that choice's total stake and bet count; the entries add up to the total stake and to the number of bets |
| Selection.SelectedIsUnique | src/bet-room/bet-room.service.ts:234-245 | the selection rule picks exactly one digit |
| Selection.PrecedesIsOrder | src/bet-room/bet-room.service.ts:229-232 | the sort order is irreflexive, asymmetric, total on distinct digits, and its complement is transitive |
| Selection.InsertSlot | src/bet-room/bet-room.service.ts:230-232 | one insertion step extends the sorted prefix by one slot and keeps the same slots |
| Selection.SortSlots | src/bet-room/bet-room.service.ts:229-232 | the slots end up sorted by bet count, then stake, both descending, ties in digit order, and are a permutation of the input |
| Selection.FirstWithinCapIsSelected | src/bet-room/bet-room.service.ts:234-242 | the first within-cap slot of the sorted order is the selected digit |
| Selection.HeadIsFallback | src/bet-room/bet-room.service.ts:244-245 | when no slot is within the cap, the head of the sorted order is the selected digit |
| Selection.SelectWinner | src/bet-room/bet-room.service.ts:205-246 | the returned digit is the first within the cap in the sort order of the padded statistics, or the head of that order when no digit fits |
| Selection.DigitStakesWithinTotal | src/bet-room/bet-room.service.ts:119-136 | with non-negative stakes, the ten digit stakes add up to at most the total stake |
| Selection.SomeDigitWithinCap | src/bet-room/bet-room.service.ts:209-242 | with non-negative stakes some digit always fits the cap |
| Selection.SelectionFitsCap | src/bet-room/bet-room.service.ts:239-245 | with non-negative stakes (which `placeBet` does not enforce) the fallback is never needed: the selected digit's payout fits the cap |
| Selection.NoBetsSelectsZero | src/bet-room/bet-room.service.ts:212-245 | without bets, digit 0 is selected |
| Selection.ParityBetLeavesTable | src/bet-room/bet-room.service.ts:119-136 | an odd or even bet raises the total stake but changes no digit's slot |
| Settlement.SettledBets | src/bet-room/bet-room.service.ts:116-118 | the bets settlement reads: exactly the stored bets whose room id equals the round id, each as often as it is stored |
| Settlement.SettleBets | src/bet-room/bet-room.service.ts:104-175 | fails exactly when the room or the round is missing or not open, with the room error first; otherwise selects the winner from the bets it reads and returns exactly the room's bets on the winning number or its parity, each as often as it is stored |
| Lifecycle.CreateRoom | src/bet-room/bet-room.service.ts:33-48 | stores an open room with the given name and interval and an empty history under a fresh id, changes nothing else, and keeps the invariant |
| Lifecycle.CreateNewRound | src/bet-room/bet-room.service.ts:50-64 | stores an open, unscored round of the room under a fresh id, changes nothing else, and keeps the invariant |
| Lifecycle.CloseRound | src/bet-room/bet-room.service.ts:66-91 | fails exactly when settlement cannot go ahead, with one error and no change; otherwise closes the round with its end time, adds the document `createNewRound` saves (fresh id, open, unscored, start time now) and returns it, and keeps the invariant |
| Lifecycle.CloseRoundOnce | src/bet-room/bet-room.service.ts:68-70 | closing the same round again fails and changes nothing |
| Lifecycle.PlaceBet | src/bet/bet.service.ts:26-73 | fails exactly for a missing or closed room or an unknown user, changing nothing; creates one fresh round, using up one id, unless an open round is given; returns an existing bet with the same key unchanged, else appends exactly one bet with the amount, in the open round; keeps the invariant |
| Lifecycle.PlaceBetTwice | src/bet/bet.service.ts:59-63 | placing the same bet twice returns the first result and stores no second bet |
| Lifecycle.SettlementReadsNoBets | src/bet-room/bet-room.service.ts:116-118 | in a well-formed store, the bets settlement reads are none |
| Lifecycle.SettlementSelectsZero | src/bet-room/bet-room.service.ts:116-150 | in a well-formed store, every settlement selects digit 0 |
| Lifecycle.WinningsAlwaysZero | src/bet/bet.service.ts:112-138 | in a store the services produce, every user's winnings are 0 |
| Lifecycle.GetRoomRoundsHistory | src/bet-room/bet-room.service.ts:265-284 | fails exactly for an unknown room; otherwise projects each round of the room's history, in order, and the room name is absent |
| Lifecycle.HistoryAlwaysEmpty | src/bet-room/bet-room.service.ts:265-284 | in a store the services produce, every room's history is empty |
| Store.Db.CreateRoom | src/bet-room/bet-room.service.ts:33-48 | performs `Lifecycle.CreateRoom` in place and keeps the invariant |
| Store.Db.CreateNewRound | src/bet-room/bet-room.service.ts:50-64 | performs `Lifecycle.CreateNewRound` in place and keeps the invariant |
| Store.Db.CloseRound | src/bet-room/bet-room.service.ts:66-91 | checks the round, settles it, closes it and opens the next one in place: the result and new store are `Lifecycle.CloseRound`'s |
| Store.Db.PlaceBet | src/bet/bet.service.ts:26-73 | performs `Lifecycle.PlaceBet` in place and keeps the invariant |

## Left out

- The bet timer (`startBetTimer`), the first-bet lookup that starts it, and the round scheduler: they are timers and clocks. The current time is a parameter `now`.
- The WebSocket gateway, the controllers, authentication and logging: they are I/O. The notifications `closeRound` and `settleBets` send are not modelled. The `room.save()` in `settleBets` changes nothing and is left out.
- The gateway calls `checkWallet` before `placeBet`; that call order is outside the modelled services. `placeBet` itself never checks the wallet, and the model follows it. The gateway also passes its arguments to `placeBet` in a different order from the signature. The gateway is not part of this model.
- The round's `_id` field: it is used only by the first-bet lookup that starts the timer. Rounds are stored and looked up by `roundId`.
- Mongo-specific behaviour: the schema defaults `_id` of rooms and rounds to one value computed when the schema loads; the unique indexes on room names and on the bet's `roomId`; string and ObjectId id conversions. Every created document takes a fresh id, and no insert fails on a duplicate key.
- Lifecycle.PlaceBet: `roundId` is optional in the source, and `new Types.ObjectId(undefined)` is a fresh id that matches no round. The model uses `None` for that case.
- BetQueries.FindBet: `findOne` may return any matching document. The model returns the first in insertion order.
- Floating point: stakes, totals and the 90% cap are exact integers. The cap is compared as `10 * amount <= total`.
- Numeric choices given as strings, and non-integer numbers: a choice is a whole number, `odd` or `even`.
- The key order of `Object.values` on the statistics: the model keeps the order of first appearance. Selection does not depend on it, because each entry is added into its digit's slot.
- `createRoom`'s `roomId` argument is not part of the room schema and is not modelled.
- `findById`, `getRoomStatus`, `getAllBetsByRoomId`, `getNextRoundNumber` and the user CRUD operations are plain lookups with no logic of their own. They are not part of this model.
- Concurrency between the timer callback, requests and the scheduler is not modelled. Each operation runs as one atomic step.
