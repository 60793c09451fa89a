/** Winner selection: the statistics are padded to the ten digits, sorted
    by number of bets and then stake, both descending, and the first digit
    whose payout fits the house's cap wins. */
module Selection {
  import opened Domain
  import opened Aggregation

  /** One of the ten padded entries: a digit, its stake and its bet count. */
  datatype Slot = Slot(number: int, amount: int, totalUsers: int)

  /** The ten padded entries, digit k at index k, holding what the
      statistics record for k. Parity entries and numbers outside 0..9 have
      no slot. */
  function Table(stats: seq<Tally>): seq<Slot> {
    seq(10, k requires 0 <= k < 10 => Slot(k, TallyStake(stats, Number(k)), TallyUsers(stats, Number(k))))
  }

  /** The same ten entries computed straight from the bets. */
  function BetTable(bets: seq<Bet>): seq<Slot> {
    seq(10, k requires 0 <= k < 10 => Slot(k, StakeOn(bets, Number(k)), CountOn(bets, Number(k))))
  }

  /** A sequence of ten slots with digit k at index k. */
  predicate IsTable(t: seq<Slot>) {
    |t| == 10 && forall k :: 0 <= k < 10 ==> t[k].number == k
  }

  /** The order the slots are sorted into. The comparator puts more bets
      first, then the larger stake; the sort is stable and the slots start
      in digit order, so the remaining ties keep the smaller digit first. */
  predicate Precedes(a: Slot, b: Slot) {
    || a.totalUsers > b.totalUsers
    || (a.totalUsers == b.totalUsers && a.amount > b.amount)
    || (a.totalUsers == b.totalUsers && a.amount == b.amount && a.number < b.number)
  }

  /** The cap `amount * 9 <= totalInvestment * 0.9`; over exact numbers it
      is `10 * amount <= totalInvestment`. */
  predicate WithinCap(s: Slot, total: int) {
    10 * s.amount <= total
  }

  predicate Sorted(s: seq<Slot>) {
    forall p, q :: 0 <= p < q < |s| ==> !Precedes(s[q], s[p])
  }

  /** The digit the selection returns: when some digit fits the cap, the
      first such digit in the sort order (no digit before it fits);
      otherwise the fallback, the digit at the head of the order. */
  predicate IsSelected(t: seq<Slot>, total: int, w: int)
    requires IsTable(t)
  {
    && 0 <= w < 10
    && if exists k :: 0 <= k < 10 && WithinCap(t[k], total) then
         && WithinCap(t[w], total)
         && forall k :: 0 <= k < 10 && Precedes(t[k], t[w]) ==> !WithinCap(t[k], total)
       else
         forall k :: 0 <= k < 10 ==> !Precedes(t[k], t[w])
  }

  /** The rule picks one digit: two digits that both satisfy it are equal. */
  lemma SelectedIsUnique(t: seq<Slot>, total: int, w1: int, w2: int)
    requires IsTable(t)
    requires IsSelected(t, total, w1) && IsSelected(t, total, w2)
    ensures w1 == w2
  {
  }

  /** The order is total on slots with different numbers, and not
      preceding is transitive. */
  lemma PrecedesIsOrder(a: Slot, b: Slot, c: Slot)
    ensures !Precedes(a, a)
    ensures Precedes(a, b) ==> !Precedes(b, a)
    ensures a.number != b.number ==> Precedes(a, b) || Precedes(b, a)
    ensures !Precedes(b, a) && !Precedes(c, b) ==> !Precedes(c, a)
  {
  }

  /** One step of insertion: the slot at i moves left past every slot it
      precedes, so the first i + 1 slots are sorted. */
  method InsertSlot(a: array<Slot>, i: int)
    requires 0 <= i < a.Length
    requires forall p, q :: 0 <= p < q < i ==> !Precedes(a[q], a[p])
    modifies a
    ensures forall p, q :: 0 <= p < q <= i ==> !Precedes(a[q], a[p])
    ensures multiset(a[..]) == multiset(old(a[..]))
  {
    var j := i;
    while j > 0 && Precedes(a[j], a[j - 1])
      invariant 0 <= j <= i
      invariant forall p, q :: 0 <= p < q <= i && p != j && q != j ==> !Precedes(a[q], a[p])
      invariant forall q :: j < q <= i ==> Precedes(a[j], a[q])
      invariant multiset(a[..]) == multiset(old(a[..]))
    {
      a[j - 1], a[j] := a[j], a[j - 1];
      j := j - 1;
    }
    forall p, q | 0 <= p < q <= i ensures !Precedes(a[q], a[p]) {
      if q == j && p < j {
        PrecedesIsOrder(a[p], a[j - 1], a[j]);
      } else if p == j {
        PrecedesIsOrder(a[j], a[q], a[q]);
      }
    }
  }

  /** `completeNumbers.sort(...)`: an in-place insertion sort into the
      order `Precedes`, keeping the same slots. */
  method SortSlots(a: array<Slot>)
    modifies a
    ensures Sorted(a[..])
    ensures multiset(a[..]) == multiset(old(a[..]))
  {
    for i := 0 to a.Length
      invariant forall p, q :: 0 <= p < q < i ==> !Precedes(a[q], a[p])
      invariant multiset(a[..]) == multiset(old(a[..]))
    {
      InsertSlot(a, i);
    }
  }

  /** The scan's hit is the selected digit: a sorted arrangement of the
      table's slots whose first within-cap slot is at i. */
  lemma FirstWithinCapIsSelected(t: seq<Slot>, s: seq<Slot>, total: int, i: int)
    requires IsTable(t) && |s| == 10 && Sorted(s) && multiset(s) == multiset(t)
    requires 0 <= i < 10 && WithinCap(s[i], total)
    requires forall p :: 0 <= p < i ==> !WithinCap(s[p], total)
    ensures IsSelected(t, total, s[i].number)
  {
    assert s[i] in multiset(t);
    var w :| 0 <= w < 10 && t[w] == s[i];
    forall k | 0 <= k < 10 && Precedes(t[k], t[w])
      ensures !WithinCap(t[k], total)
    {
      assert t[k] in multiset(s);
      var p :| 0 <= p < 10 && s[p] == t[k];
      assert p < i;
    }
  }

  /** When no slot fits the cap, the head of the sorted slots is the
      selected digit. */
  lemma HeadIsFallback(t: seq<Slot>, s: seq<Slot>, total: int)
    requires IsTable(t) && |s| == 10 && Sorted(s) && multiset(s) == multiset(t)
    requires forall p :: 0 <= p < 10 ==> !WithinCap(s[p], total)
    ensures IsSelected(t, total, s[0].number)
  {
    assert s[0] in multiset(t);
    var w :| 0 <= w < 10 && t[w] == s[0];
    forall k | 0 <= k < 10
      ensures !WithinCap(t[k], total) && !Precedes(t[k], t[w])
    {
      assert t[k] in multiset(s);
      var p :| 0 <= p < 10 && s[p] == t[k];
    }
  }

  /** `selectWinner`: pads the statistics to the ten digits (adding each
      entry into the slot whose number equals its key), sorts the slots in
      place, and returns the first digit within the cap, or the head of the
      order when none is. */
  method SelectWinner(numbers: seq<Tally>, totalInvestment: int) returns (winner: int)
    ensures IsSelected(Table(numbers), totalInvestment, winner)
  {
    var completeNumbers := new Slot[10](k => Slot(k, 0, 0));
    for n := 0 to |numbers|
      invariant forall k :: 0 <= k < 10 ==>
                  completeNumbers[k] == Slot(k, TallyStake(numbers[..n], Number(k)), TallyUsers(numbers[..n], Number(k)))
    {
      var entry := numbers[n];
      assert numbers[..n + 1][..n] == numbers[..n];
      // `find` of the slot whose number is the entry's key: slot k holds k.
      if entry.choice.Number? && 0 <= entry.choice.n < 10 {
        var k := entry.choice.n;
        completeNumbers[k] := Slot(k, completeNumbers[k].amount + entry.amount,
                                      completeNumbers[k].totalUsers + entry.totalUsers);
      }
    }
    assert numbers[..|numbers|] == numbers;
    ghost var table := completeNumbers[..];
    assert table == Table(numbers);
    SortSlots(completeNumbers);
    for i := 0 to 10
      invariant forall p :: 0 <= p < i ==> !WithinCap(completeNumbers[p], totalInvestment)
    {
      var slot := completeNumbers[i];
      if 10 * slot.amount <= totalInvestment {
        winner := slot.number;
        FirstWithinCapIsSelected(table, completeNumbers[..], totalInvestment, i);
        return;
      }
    }
    winner := completeNumbers[0].number;
    HeadIsFallback(table, completeNumbers[..], totalInvestment);
  }

  /** The ten digit stakes together are at most the total stake when no
      stake is negative. */
  lemma {:induction false} DigitStakesWithinTotal(bets: seq<Bet>)
    requires forall b :: b in bets ==> b.amount >= 0
    ensures StakeOn(bets, Number(0)) + StakeOn(bets, Number(1)) + StakeOn(bets, Number(2))
          + StakeOn(bets, Number(3)) + StakeOn(bets, Number(4)) + StakeOn(bets, Number(5))
          + StakeOn(bets, Number(6)) + StakeOn(bets, Number(7)) + StakeOn(bets, Number(8))
          + StakeOn(bets, Number(9)) <= TotalStake(bets)
  {
    if bets != [] {
      assert bets[|bets| - 1] in bets;
      DigitStakesWithinTotal(bets[..|bets| - 1]);
    }
  }

  /** Pigeonhole: with non-negative stakes some digit holds at most a
      tenth of the total stake, so some digit always fits the cap. */
  lemma SomeDigitWithinCap(bets: seq<Bet>)
    requires forall b :: b in bets ==> b.amount >= 0
    ensures exists k :: 0 <= k < 10 && WithinCap(BetTable(bets)[k], TotalStake(bets))
  {
    DigitStakesWithinTotal(bets);
    var t, total := BetTable(bets), TotalStake(bets);
    if !WithinCap(t[0], total) && !WithinCap(t[1], total) && !WithinCap(t[2], total)
       && !WithinCap(t[3], total) && !WithinCap(t[4], total) && !WithinCap(t[5], total)
       && !WithinCap(t[6], total) && !WithinCap(t[7], total) && !WithinCap(t[8], total)
    {
      assert WithinCap(t[9], total);
    }
  }

  /** Settlement never reaches the fallback: for a round's bets with
      non-negative stakes, the selected digit fits the cap. */
  lemma SelectionFitsCap(bets: seq<Bet>, w: int)
    requires forall b :: b in bets ==> b.amount >= 0
    requires IsTable(BetTable(bets)) && IsSelected(BetTable(bets), TotalStake(bets), w)
    ensures WithinCap(BetTable(bets)[w], TotalStake(bets))
    ensures 10 * StakeOn(bets, Number(w)) <= TotalStake(bets)
  {
    SomeDigitWithinCap(bets);
  }

  /** A round with no bets still produces a winner: digit 0, the head of
      the order among ten equal slots. */
  lemma NoBetsSelectsZero(w: int)
    requires IsTable(BetTable([])) && IsSelected(BetTable([]), 0, w)
    ensures w == 0
  {
    var t := BetTable([]);
    assert WithinCap(t[0], 0);
    if w != 0 {
      assert Precedes(t[0], t[w]);
    }
  }

  /** Parity bets raise the total stake, and with it the cap, but never
      change a digit's slot. */
  lemma ParityBetLeavesTable(bets: seq<Bet>, b: Bet)
    requires b.choice == Odd || b.choice == Even
    ensures BetTable(bets + [b]) == BetTable(bets)
    ensures TotalStake(bets + [b]) == TotalStake(bets) + b.amount
  {
  }
}
