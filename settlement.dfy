/** Settling a round: the guards on room and round, the statistics of the
    bets read for it, the winner selection and the winners' bets. */
module Settlement {
  import opened Domain
  import opened BetQueries
  import opened Aggregation
  import opened Selection

  /** Settlement goes ahead only for a stored open room and a stored open
      round. */
  predicate CanSettle(s: Collections, roomId: Id, roundId: Id) {
    && roomId in s.rooms && s.rooms[roomId].status == Open
    && roundId in s.rounds && s.rounds[roundId].status == Open
  }

  /** The bets settlement reads. The source passes the ROUND id to the
      by-room query, so these are the bets whose room id equals the round
      id. */
  function SettledBets(s: Collections, roundId: Id): (r: seq<Bet>)
    ensures forall b :: b in r <==> b in s.bets && b.roomId == roundId
    ensures forall b {:trigger multiset(r)[b]} :: multiset(r)[b] == if b.roomId == roundId then multiset(s.bets)[b] else 0
    ensures (forall b :: b in s.bets ==> b.roomId != roundId) ==> r == []
  {
    BetsForRoom(s.bets, roundId)
  }

  datatype Outcome = Outcome(winningNumber: int, winners: seq<Bet>)

  /** `settleBets`: fails unless room and round are stored and open;
      otherwise selects the winning digit from the statistics of the bets it
      read and returns the room's bets that win on it. It changes nothing
      in the store: the room's status is left as it was. */
  method SettleBets(s: Collections, roomId: Id, roundId: Id) returns (r: Result<Outcome>)
    ensures r.Err? <==> !CanSettle(s, roomId, roundId)
    ensures r.Err? ==>
              r.error == if roomId in s.rooms && s.rooms[roomId].status == Open
                         then RoundNotOpenOrMissing else RoomNotOpenOrMissing
    ensures r.Ok? ==>
              var bets := SettledBets(s, roundId);
              IsSelected(BetTable(bets), TotalStake(bets), r.value.winningNumber)
    ensures r.Ok? ==>
              var w := r.value.winningNumber;
              forall b :: b in r.value.winners <==> b in s.bets && b.roomId == roomId && Wins(b.choice, w)
    ensures r.Ok? ==>
              var w := r.value.winningNumber;
              forall b {:trigger multiset(r.value.winners)[b]} :: multiset(r.value.winners)[b] ==
                if b.roomId == roomId && Wins(b.choice, w) then multiset(s.bets)[b] else 0
  {
    if roomId !in s.rooms || s.rooms[roomId].status != Open {
      return Err(RoomNotOpenOrMissing);
    }
    if roundId !in s.rounds || s.rounds[roundId].status != Open {
      return Err(RoundNotOpenOrMissing);
    }
    var bets := BetsForRoom(s.bets, roundId);
    var totalInvestment := TotalStake(bets);
    var numberStats := AggregateBets(bets);
    var winningNumber := SelectWinner(numberStats, totalInvestment);
    assert Table(numberStats) == BetTable(bets);
    var isOdd := winningNumber % 2 != 0;
    var winners := RoomWinners(s.bets, roomId, winningNumber, isOdd);
    r := Ok(Outcome(winningNumber, winners));
  }
}
