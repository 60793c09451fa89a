/** The part of the user service with logic of its own: the user's total
    winnings over every room. */
module UserService {
  import opened Domain
  import opened BetQueries
  import opened Winnings

  /** `getTotalUserWinnings`: the same loop as the bet service's
      `getUserWinnings`, without the unused room argument, so both compute
      `Total` of the user's bets. */
  method GetTotalUserWinnings(bets: seq<Bet>, rounds: map<Id, Round>, userId: Id)
    returns (totalWinnings: int)
    ensures totalWinnings == Total(BetsByUser(bets, userId), rounds)
    ensures BetsByUser(bets, userId) == [] ==> totalWinnings == 0
  {
    var userBets := BetsByUser(bets, userId);
    totalWinnings := 0;
    var i := 0;
    while i < |userBets|
      invariant 0 <= i <= |userBets|
      invariant totalWinnings == Total(userBets[..i], rounds)
    {
      var bet := userBets[i];
      assert userBets[..i + 1][..i] == userBets[..i] && userBets[..i + 1][i] == bet;
      assert Total(userBets[..i + 1], rounds) == Total(userBets[..i], rounds) + Payout(bet, rounds);
      if bet.roundId in rounds && rounds[bet.roundId].status == Closed {
        var round := rounds[bet.roundId];
        if || (bet.choice == Odd && round.winningNumber % 2 != 0)
           || (bet.choice == Even && round.winningNumber % 2 == 0)
           || bet.choice == Number(round.winningNumber)
        {
          totalWinnings := totalWinnings + bet.amount * round.payoutMultiplier;
        }
      }
      i := i + 1;
    }
    assert userBets[..i] == userBets;
  }
}
