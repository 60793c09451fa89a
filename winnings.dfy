/** What a user has won: each bet whose round is stored as closed and whose
    choice matches the round's winning number pays its amount times the
    round's payout multiplier. */
module Winnings {
  import opened Domain
  import opened BetQueries

  /** The closed round a bet belongs to, if the store holds one
      (`findOne({ roundId, status: 'closed' })`). */
  predicate InClosedRound(b: Bet, rounds: map<Id, Round>) {
    b.roundId in rounds && rounds[b.roundId].status == Closed
  }

  /** What one bet contributes to its user's winnings. */
  function Payout(b: Bet, rounds: map<Id, Round>): int {
    if InClosedRound(b, rounds) && Wins(b.choice, rounds[b.roundId].winningNumber)
    then b.amount * rounds[b.roundId].payoutMultiplier
    else 0
  }

  /** The winnings of a list of bets: the sum of their payouts. */
  function Total(bets: seq<Bet>, rounds: map<Id, Round>): int {
    if bets == [] then 0
    else Total(bets[..|bets| - 1], rounds) + Payout(bets[|bets| - 1], rounds)
  }

  /** Winnings are additive over concatenation of bet lists. */
  lemma {:induction false} TotalAppend(xs: seq<Bet>, ys: seq<Bet>, rounds: map<Id, Round>)
    ensures Total(xs + ys, rounds) == Total(xs, rounds) + Total(ys, rounds)
  {
    if ys != [] {
      var init := ys[..|ys| - 1];
      assert (xs + ys)[..|xs + ys| - 1] == xs + init;
      TotalAppend(xs, init, rounds);
    } else {
      assert xs + ys == xs;
    }
  }

  /** With non-negative stakes and multipliers the winnings are never negative. */
  lemma {:induction false} TotalNonNegative(bets: seq<Bet>, rounds: map<Id, Round>)
    requires forall b :: b in bets ==> b.amount >= 0
    requires forall id :: id in rounds ==> rounds[id].payoutMultiplier >= 0
    ensures Total(bets, rounds) >= 0
  {
    if bets != [] {
      var last := bets[|bets| - 1];
      assert last in bets;
      TotalNonNegative(bets[..|bets| - 1], rounds);
      if InClosedRound(last, rounds) {
        var m := rounds[last.roundId].payoutMultiplier;
        assert last.amount * m >= 0 by {
          assert last.amount >= 0 && m >= 0;
        }
      }
    }
  }

  /** Bets whose round is missing or still open contribute nothing, whatever
      they are on. */
  lemma {:induction false} OnlyClosedRoundsPay(bets: seq<Bet>, rounds: map<Id, Round>)
    requires forall b :: b in bets ==> !InClosedRound(b, rounds)
    ensures Total(bets, rounds) == 0
  {
    if bets != [] {
      assert bets[|bets| - 1] in bets;
      OnlyClosedRoundsPay(bets[..|bets| - 1], rounds);
    }
  }

  /** Rounds whose payout multiplier is zero pay nothing. */
  lemma {:induction false} ZeroMultipliersPayNothing(bets: seq<Bet>, rounds: map<Id, Round>)
    requires forall id :: id in rounds ==> rounds[id].payoutMultiplier == 0
    ensures Total(bets, rounds) == 0
  {
    if bets != [] {
      ZeroMultipliersPayNothing(bets[..|bets| - 1], rounds);
    }
  }

  /** `getUserWinnings` of the bet service: loops over the user's bets and
      adds the payout of each matching bet of a closed round. The room id
      argument is not used by the source. */
  method GetUserWinnings(bets: seq<Bet>, rounds: map<Id, Round>, roomId: Id, userId: Id)
    returns (totalWinnings: int)
    ensures totalWinnings == Total(BetsByUser(bets, userId), rounds)
  {
    var userBets := BetsByUser(bets, userId);
    totalWinnings := 0;
    for i := 0 to |userBets|
      invariant totalWinnings == Total(userBets[..i], rounds)
    {
      var bet := userBets[i];
      assert userBets[..i + 1][..i] == userBets[..i] && userBets[..i + 1][i] == bet;
      assert Total(userBets[..i + 1], rounds) == Total(userBets[..i], rounds) + Payout(bet, rounds);
      if bet.roundId in rounds && rounds[bet.roundId].status == Closed {
        var round := rounds[bet.roundId];
        if || (bet.choice == Odd && round.winningNumber % 2 != 0)
           || (bet.choice == Even && round.winningNumber % 2 == 0)
           || bet.choice == Number(round.winningNumber)
        {
          totalWinnings := totalWinnings + bet.amount * round.payoutMultiplier;
        }
      }
    }
    assert userBets[..|userBets|] == userBets;
  }
}
