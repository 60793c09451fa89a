/** The read-only side of the bet service: the filters it runs on the bet
    collection, the user checks, and the rule that decides whether a bet
    matches a winning number. */
module BetQueries {
  import opened Domain

  /** The selection every `find(query)` on the bet collection performs:
      each stored bet that matches the query, as many times as it is
      stored, and no other. */
  function Filter(bets: seq<Bet>, keep: Bet -> bool): (r: seq<Bet>)
    ensures |r| <= |bets|
    ensures forall b :: b in r <==> b in bets && keep(b)
    ensures forall b {:trigger multiset(r)[b]} :: multiset(r)[b] == if keep(b) then multiset(bets)[b] else 0
    ensures (forall b :: b in bets ==> !keep(b)) ==> r == []
  {
    if bets == [] then []
    else
      var init, last := bets[..|bets| - 1], bets[|bets| - 1];
      assert bets == init + [last];
      Filter(init, keep) + (if keep(last) then [last] else [])
  }

  /** `getBetsForRoom`: every bet stored under the room id. */
  function BetsForRoom(bets: seq<Bet>, roomId: Id): (r: seq<Bet>)
    ensures forall b :: b in r <==> b in bets && b.roomId == roomId
    ensures forall b {:trigger multiset(r)[b]} :: multiset(r)[b] == if b.roomId == roomId then multiset(bets)[b] else 0
    ensures (forall b :: b in bets ==> b.roomId != roomId) ==> r == []
  {
    Filter(bets, (b: Bet) => b.roomId == roomId)
  }

  /** `getWinners` of the bet service: the room's bets on exactly the
      winning number; parity bets are not included. */
  function ExactWinners(bets: seq<Bet>, roomId: Id, winningNumber: int): (r: seq<Bet>)
    ensures forall b :: b in r <==> b in bets && b.roomId == roomId && b.choice == Number(winningNumber)
    ensures forall b {:trigger multiset(r)[b]} :: multiset(r)[b] ==
              if b.roomId == roomId && b.choice == Number(winningNumber) then multiset(bets)[b] else 0
    ensures forall b :: b in r ==> b.choice != Odd && b.choice != Even
  {
    Filter(bets, (b: Bet) => b.roomId == roomId && b.choice == Number(winningNumber))
  }

  /** `getBetsByUser`. */
  function BetsByUser(bets: seq<Bet>, userId: Id): (r: seq<Bet>)
    ensures forall b :: b in r <==> b in bets && b.userId == userId
    ensures forall b {:trigger multiset(r)[b]} :: multiset(r)[b] == if b.userId == userId then multiset(bets)[b] else 0
  {
    Filter(bets, (b: Bet) => b.userId == userId)
  }

  /** `findBetsByRound`. */
  function BetsByRound(bets: seq<Bet>, roundId: Id): (r: seq<Bet>)
    ensures forall b :: b in r <==> b in bets && b.roundId == roundId
    ensures forall b {:trigger multiset(r)[b]} :: multiset(r)[b] == if b.roundId == roundId then multiset(bets)[b] else 0
    ensures (forall b :: b in bets ==> b.roundId != roundId) ==> r == []
  {
    Filter(bets, (b: Bet) => b.roundId == roundId)
  }

  /** JavaScript's `w % 2`: the remainder truncated toward zero, so it
      takes the sign of `w`. */
  function TruncatedRem2(w: int): int {
    if w >= 0 then w % 2 else -((-w) % 2)
  }

  /** The match rule of both winnings loops: `odd` wins on an odd winning
      number, `even` on an even one, a number on equality. Dafny's `%` is
      Euclidean, but whether `w % 2` is zero agrees with JavaScript's
      truncating remainder for every integer `w`. */
  predicate Wins(c: Choice, winningNumber: int): (r: bool)
    ensures c == Odd ==> (r <==> TruncatedRem2(winningNumber) != 0)
    ensures c == Even ==> (r <==> TruncatedRem2(winningNumber) == 0)
    ensures c.Number? ==> (r <==> c.n == winningNumber)
  {
    || (c == Odd && winningNumber % 2 != 0)
    || (c == Even && winningNumber % 2 == 0)
    || c == Number(winningNumber)
  }

  /** `getWinners` of the room service: the room's bets on the winning
      number or on the parity `isOdd` names. The query does not filter by
      round, so bets of every round of the room are returned. When `isOdd`
      is the parity of the winning number, which is how settlement calls
      it, the result is exactly the room's bets that `Wins`. */
  function RoomWinners(bets: seq<Bet>, roomId: Id, winningNumber: int, isOdd: bool): (r: seq<Bet>)
    ensures forall b :: b in r ==> b in bets && b.roomId == roomId
    ensures isOdd == (winningNumber % 2 != 0) ==>
              forall b :: b in r <==> b in bets && b.roomId == roomId && Wins(b.choice, winningNumber)
    ensures isOdd == (winningNumber % 2 != 0) ==>
              forall b {:trigger multiset(r)[b]} :: multiset(r)[b] ==
                if b.roomId == roomId && Wins(b.choice, winningNumber) then multiset(bets)[b] else 0
  {
    Filter(bets, (b: Bet) => b.roomId == roomId && (b.choice == Number(winningNumber) || b.choice == (if isOdd then Odd else Even)))
  }

  /** `checkUserExists`: true exactly for a stored user. It agrees with
      the wallet check, which fails exactly for users that do not exist,
      whatever the amount. */
  predicate UserExists(users: map<Id, User>, userId: Id): (r: bool)
    ensures forall amount :: r <==> CheckWallet(users, userId, amount).Ok?
  {
    userId in users
  }

  /** `checkWallet`: fails for an unknown user, otherwise says whether the
      wallet covers the amount. */
  function CheckWallet(users: map<Id, User>, userId: Id, amount: int): (r: Result<bool>)
    ensures r.Err? <==> userId !in users
    ensures r.Err? ==> r.error == UserNotFound
    ensures r.Ok? ==> (r.value <==> users[userId].walletBalance >= amount)
  {
    if userId !in users then Err(UserNotFound)
    else Ok(users[userId].walletBalance >= amount)
  }

  /** The key of the duplicate-bet lookup: user, room and choice; neither
      the round nor the amount is part of it. */
  predicate SameKey(b: Bet, userId: Id, roomId: Id, choice: Choice) {
    b.userId == userId && b.roomId == roomId && b.choice == choice
  }

  /** `findOne({ userId, roomId, number })`: the position of the first
      stored bet with that key. */
  function FindBet(bets: seq<Bet>, userId: Id, roomId: Id, choice: Choice): (r: Option<nat>)
    ensures r.Some? ==> r.value < |bets| && SameKey(bets[r.value], userId, roomId, choice)
    ensures r.Some? ==> forall j :: 0 <= j < r.value ==> !SameKey(bets[j], userId, roomId, choice)
    ensures r.None? ==> forall b :: b in bets ==> !SameKey(b, userId, roomId, choice)
  {
    if bets == [] then None
    else if SameKey(bets[0], userId, roomId, choice) then Some(0)
    else match FindBet(bets[1..], userId, roomId, choice)
      case None => None
      case Some(i) => Some(i + 1)
  }

  /** Appending a bet never changes an earlier hit, and a bet with the key
      appended after a miss is the hit. */
  lemma {:induction false} FindBetAppend(bets: seq<Bet>, b: Bet, userId: Id, roomId: Id, choice: Choice)
    ensures FindBet(bets, userId, roomId, choice).Some? ==>
              FindBet(bets + [b], userId, roomId, choice) == FindBet(bets, userId, roomId, choice)
    ensures FindBet(bets, userId, roomId, choice).None? && SameKey(b, userId, roomId, choice) ==>
              FindBet(bets + [b], userId, roomId, choice) == Some(|bets|)
  {
    if bets != [] {
      assert (bets + [b])[1..] == bets[1..] + [b];
      FindBetAppend(bets[1..], b, userId, roomId, choice);
    }
  }
}
