/** The statistics settlement builds from a round's bets: one entry per
    distinct choice with the summed stake and the number of bets on it, and
    the total stake over all bets. */
module Aggregation {
  import opened Domain

  /** One entry of the per-choice statistics record. */
  datatype Tally = Tally(choice: Choice, amount: int, totalUsers: int)

  /** `totalInvestment`: the stake of every bet, whatever it is on. With
      no negative stake it is never negative and no single stake exceeds
      it. */
  function TotalStake(bets: seq<Bet>): (r: int)
    ensures (forall i :: 0 <= i < |bets| ==> bets[i].amount >= 0) ==>
              r >= 0 && forall i :: 0 <= i < |bets| ==> bets[i].amount <= r
  {
    if bets == [] then 0 else TotalStake(bets[..|bets| - 1]) + bets[|bets| - 1].amount
  }

  /** The stake placed on one choice. */
  function StakeOn(bets: seq<Bet>, c: Choice): int {
    if bets == [] then 0
    else StakeOn(bets[..|bets| - 1], c) + (if bets[|bets| - 1].choice == c then bets[|bets| - 1].amount else 0)
  }

  /** The number of bets on one choice. */
  function CountOn(bets: seq<Bet>, c: Choice): nat {
    if bets == [] then 0
    else CountOn(bets[..|bets| - 1], c) + (if bets[|bets| - 1].choice == c then 1 else 0)
  }

  /** The stake the statistics record for one choice. */
  function TallyStake(stats: seq<Tally>, c: Choice): int {
    if stats == [] then 0
    else TallyStake(stats[..|stats| - 1], c) + (if stats[|stats| - 1].choice == c then stats[|stats| - 1].amount else 0)
  }

  /** The number of bets the statistics record for one choice. */
  function TallyUsers(stats: seq<Tally>, c: Choice): int {
    if stats == [] then 0
    else TallyUsers(stats[..|stats| - 1], c) + (if stats[|stats| - 1].choice == c then stats[|stats| - 1].totalUsers else 0)
  }

  /** The stakes of all entries added up. */
  function AmountSum(stats: seq<Tally>): int {
    if stats == [] then 0 else AmountSum(stats[..|stats| - 1]) + stats[|stats| - 1].amount
  }

  /** The bet counts of all entries added up. */
  function UsersSum(stats: seq<Tally>): int {
    if stats == [] then 0 else UsersSum(stats[..|stats| - 1]) + stats[|stats| - 1].totalUsers
  }

  /** The record is keyed by choice: no choice has two entries. */
  predicate DistinctKeys(stats: seq<Tally>) {
    forall i, j :: 0 <= i < j < |stats| ==> stats[i].choice != stats[j].choice
  }

  /** `acc[number]`: the entry kept for a choice, if there is one. */
  function KeyIndex(stats: seq<Tally>, c: Choice): (r: Option<nat>)
    ensures r.Some? ==> r.value < |stats| && stats[r.value].choice == c
    ensures r.None? ==> forall i :: 0 <= i < |stats| ==> stats[i].choice != c
  {
    if stats == [] then None
    else if stats[|stats| - 1].choice == c then Some(|stats| - 1)
    else KeyIndex(stats[..|stats| - 1], c)
  }

  /** Replacing one entry by another with the same key moves each sum by
      the difference of the two entries. */
  lemma {:induction false} ReplaceEntry(stats: seq<Tally>, j: nat, t: Tally, c: Choice)
    requires j < |stats| && t.choice == stats[j].choice
    ensures TallyStake(stats[j := t], c) ==
            TallyStake(stats, c) + (if t.choice == c then t.amount - stats[j].amount else 0)
    ensures TallyUsers(stats[j := t], c) ==
            TallyUsers(stats, c) + (if t.choice == c then t.totalUsers - stats[j].totalUsers else 0)
    ensures AmountSum(stats[j := t]) == AmountSum(stats) + t.amount - stats[j].amount
    ensures UsersSum(stats[j := t]) == UsersSum(stats) + t.totalUsers - stats[j].totalUsers
  {
    var n := |stats|;
    if j == n - 1 {
      assert stats[j := t][..n - 1] == stats[..n - 1];
    } else {
      assert stats[j := t][..n - 1] == stats[..n - 1][j := t];
      ReplaceEntry(stats[..n - 1], j, t, c);
    }
  }

  /** The `reduce` of settlement: each bet adds its amount and one bet to
      the entry of its choice, creating the entry on first sight. The
      result is keyed by choice, each choice's entry holds exactly that
      choice's stake and bet count, and the entries add up to the total
      stake and to the number of bets. */
  method AggregateBets(bets: seq<Bet>) returns (stats: seq<Tally>)
    ensures DistinctKeys(stats)
    ensures forall i :: 0 <= i < |stats| ==> stats[i].totalUsers > 0
    ensures forall c :: TallyStake(stats, c) == StakeOn(bets, c)
    ensures forall c :: TallyUsers(stats, c) == CountOn(bets, c)
    ensures AmountSum(stats) == TotalStake(bets)
    ensures UsersSum(stats) == |bets|
  {
    stats := [];
    for i := 0 to |bets|
      invariant DistinctKeys(stats)
      invariant forall k :: 0 <= k < |stats| ==> stats[k].totalUsers > 0
      invariant forall c :: TallyStake(stats, c) == StakeOn(bets[..i], c)
      invariant forall c :: TallyUsers(stats, c) == CountOn(bets[..i], c)
      invariant AmountSum(stats) == TotalStake(bets[..i])
      invariant UsersSum(stats) == i
    {
      var bet := bets[i];
      var seen := bets[..i + 1];
      assert seen[..i] == bets[..i] && seen[i] == bet;
      assert TotalStake(seen) == TotalStake(bets[..i]) + bet.amount;
      match KeyIndex(stats, bet.choice)
      case Some(j) =>
        var t := Tally(bet.choice, stats[j].amount + bet.amount, stats[j].totalUsers + 1);
        var next := stats[j := t];
        forall c ensures TallyStake(next, c) == StakeOn(seen, c) && TallyUsers(next, c) == CountOn(seen, c) {
          ReplaceEntry(stats, j, t, c);
        }
        ReplaceEntry(stats, j, t, bet.choice);
        stats := next;
      case None =>
        var t := Tally(bet.choice, bet.amount, 1);
        var next := stats + [t];
        assert next[..|stats|] == stats;
        forall c ensures TallyStake(next, c) == StakeOn(seen, c) && TallyUsers(next, c) == CountOn(seen, c) {
        }
        stats := next;
    }
    assert bets[..|bets|] == bets;
  }
}
