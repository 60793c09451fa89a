/** The store transitions of the two services as functions from the store
    before to the store after: creating rooms and rounds, closing a round,
    placing a bet, and the room history projection. The store class runs
    the same transitions in place. */
module Lifecycle {
  import opened Domain
  import opened BetQueries
  import opened Aggregation
  import opened Selection
  import opened Settlement
  import opened Winnings

  /** An operation's result and the store after it. */
  datatype Step<T> = Step(result: Result<T>, after: Collections)

  /** A created document and the store after it. */
  datatype Made<T> = Made(value: T, after: Collections)

  /** Identifiers come from one fresh supply, every document is stored
      under its own id, and every bet points at a stored room and round. */
  predicate WellFormed(s: Collections) {
    && (forall id :: id in s.rooms ==> id < s.nextId && s.rooms[id].id == id)
    && (forall id :: id in s.rounds ==> id < s.nextId && id !in s.rooms && s.rounds[id].roundId == id)
    && (forall b :: b in s.bets ==> b.roomId in s.rooms && b.roundId in s.rounds)
  }

  /** A round as it is created: no winning number, winners or multiplier
      recorded yet. */
  predicate Unscored(r: Round) {
    r.winningNumber == 0 && r.winner == [] && r.payoutMultiplier == 0
  }

  /** As the services are written, no operation records a result: every
      round stays unscored and every room's round history stays empty. */
  predicate NothingRecorded(s: Collections) {
    && (forall id :: id in s.rooms ==> s.rooms[id].rounds == [])
    && (forall id :: id in s.rounds ==> Unscored(s.rounds[id]))
  }

  predicate Inv(s: Collections) {
    WellFormed(s) && NothingRecorded(s)
  }

  /** The document `createNewRound` saves. */
  function NewRound(roundId: Id, roomId: Id, now: int): Round {
    Round(roundId, roomId, 0, [], 0, Open, now, None)
  }

  /** The document `createRoom` saves. */
  function NewRoom(id: Id, name: string, drawInterval: int): Room {
    Room(id, name, Open, drawInterval, [])
  }

  /** `createRoom`: stores an open room with an empty history under a
      fresh id. */
  function CreateRoom(s: Collections, name: string, drawInterval: int): (m: Made<Room>)
    ensures m.value.id == s.nextId && m.after.nextId == s.nextId + 1
    ensures m.value.status == Open && m.value.rounds == []
    ensures m.value.name == name && m.value.drawInterval == drawInterval
    ensures Inv(s) ==> m.value.id !in s.rooms && m.value.id !in s.rounds
    ensures m.after.rooms == s.rooms[m.value.id := m.value]
    ensures m.after.rounds == s.rounds && m.after.bets == s.bets && m.after.users == s.users
    ensures Inv(s) ==> Inv(m.after)
  {
    var room := NewRoom(s.nextId, name, drawInterval);
    Made(room, s.(rooms := s.rooms[s.nextId := room], nextId := s.nextId + 1))
  }

  /** `createNewRound`: stores an open round of the room under a fresh id,
      with winning number 0, no winners, multiplier 0 and no end time. The
      room id is not checked. */
  function CreateNewRound(s: Collections, roomId: Id, now: int): (m: Made<Round>)
    ensures m.value.roundId == s.nextId && m.after.nextId == s.nextId + 1
    ensures m.value.status == Open && m.value.endedAt == None && m.value.startedAt == now
    ensures Unscored(m.value) && m.value.roomId == roomId
    ensures Inv(s) ==> m.value.roundId !in s.rounds && m.value.roundId !in s.rooms
    ensures m.after.rounds == s.rounds[m.value.roundId := m.value]
    ensures m.after.rooms == s.rooms && m.after.bets == s.bets && m.after.users == s.users
    ensures Inv(s) ==> Inv(m.after)
  {
    var round := NewRound(s.nextId, roomId, now);
    Made(round, s.(rounds := s.rounds[s.nextId := round], nextId := s.nextId + 1))
  }

  /** `closeRound`: every failure (round missing or closed, room missing or
      not open) ends in the same error and changes nothing. On success the
      round is closed with its end time, nothing else about it changes (the
      selected winner is announced, not stored), and a fresh open round of
      the room is created and returned. */
  function CloseRound(s: Collections, roomId: Id, roundId: Id, now: int): (st: Step<Round>)
    ensures st.result.Err? <==> !CanSettle(s, roomId, roundId)
    ensures st.result.Err? ==> st.result.error == CloseRoundFailed && st.after == s
    ensures st.result.Ok? ==>
              && st.after.rounds == s.rounds[roundId := s.rounds[roundId].(status := Closed, endedAt := Some(now))]
                                            [st.result.value.roundId := st.result.value]
              && st.result.value.status == Open && Unscored(st.result.value)
              && st.result.value.roomId == roomId && st.result.value.endedAt == None
              && st.after.rooms == s.rooms && st.after.bets == s.bets && st.after.users == s.users
    ensures st.result.Ok? ==>
              st.result.value == NewRound(s.nextId, roomId, now) && st.after.nextId == s.nextId + 1
    // The new round has a fresh id, so the closed round stays stored as closed.
    ensures st.result.Ok? && Inv(s) ==>
              && st.result.value.roundId !in s.rounds
              && st.after.rounds[roundId].status == Closed && st.after.rounds[roundId].endedAt == Some(now)
    ensures Inv(s) ==> Inv(st.after)
  {
    if roundId !in s.rounds || s.rounds[roundId].status == Closed then Step(Err(CloseRoundFailed), s)
    else if !CanSettle(s, roomId, roundId) then Step(Err(CloseRoundFailed), s)
    else
      var closed := s.rounds[roundId].(status := Closed, endedAt := Some(now));
      var m := CreateNewRound(s.(rounds := s.rounds[roundId := closed]), roomId, now);
      Step(Ok(m.value), m.after)
  }

  /** A round is closed at most once: closing it again fails and leaves the
      store as it is. */
  lemma CloseRoundOnce(s: Collections, roomId: Id, roundId: Id, now: int, later: int)
    requires Inv(s)
    requires CloseRound(s, roomId, roundId, now).result.Ok?
    ensures var s1 := CloseRound(s, roomId, roundId, now).after;
            CloseRound(s1, roomId, roundId, later) == Step(Err(CloseRoundFailed), s1)
  {
  }

  /** The round id handed to `placeBet` names a stored open round. */
  predicate OpenRoundGiven(s: Collections, roundId: Option<Id>) {
    roundId.Some? && roundId.value in s.rounds && s.rounds[roundId.value].status == Open
  }

  /** `placeBet`, without the settlement timer. */
  function PlaceBet(s: Collections, userId: Id, roomId: Id, choice: Choice, amount: int,
                    roundId: Option<Id>, now: int): (st: Step<Bet>)
    // Nothing is stored when the room is missing or not open, or the user is unknown.
    ensures st.result.Err? <==>
              roomId !in s.rooms || s.rooms[roomId].status != Open || !UserExists(s.users, userId)
    ensures st.result.Err? ==> st.after == s
    ensures st.result.Err? ==>
              st.result.error == if roomId !in s.rooms || s.rooms[roomId].status != Open
                                 then RoomNotOpenOrMissing else UserDoesNotExist
    // Without an open round to bet in, exactly one fresh open round is created.
    ensures st.result.Ok? && OpenRoundGiven(s, roundId) ==>
              st.after.rounds == s.rounds && st.after.nextId == s.nextId
    ensures st.result.Ok? && !OpenRoundGiven(s, roundId) ==>
              st.after.rounds == s.rounds[s.nextId := NewRound(s.nextId, roomId, now)]
              && st.after.nextId == s.nextId + 1
    ensures st.result.Ok? ==>
              st.after.rooms == s.rooms && st.after.users == s.users
              && SameKey(st.result.value, userId, roomId, choice)
    // A bet with the same user, room and choice is returned as it is stored.
    ensures st.result.Ok? && FindBet(s.bets, userId, roomId, choice).Some? ==>
              st.after.bets == s.bets && st.result.value == s.bets[FindBet(s.bets, userId, roomId, choice).value]
    // Otherwise exactly one bet is appended, in the open round.
    ensures st.result.Ok? && FindBet(s.bets, userId, roomId, choice).None? ==>
              && st.after.bets == s.bets + [st.result.value]
              && st.result.value.amount == amount
              && st.result.value.roundId ==
                   if OpenRoundGiven(s, roundId) then s.rounds[roundId.value].roundId else s.nextId
    ensures Inv(s) ==> Inv(st.after)
  {
    if roomId !in s.rooms || s.rooms[roomId].status != Open then Step(Err(RoomNotOpenOrMissing), s)
    else if !UserExists(s.users, userId) then Step(Err(UserDoesNotExist), s)
    else
      var m := if OpenRoundGiven(s, roundId) then Made(s.rounds[roundId.value], s)
               else CreateNewRound(s, roomId, now);
      match FindBet(m.after.bets, userId, roomId, choice)
      case Some(i) => Step(Ok(m.after.bets[i]), m.after)
      case None =>
        var bet := Bet(userId, roomId, m.value.roundId, choice, amount);
        Step(Ok(bet), m.after.(bets := m.after.bets + [bet]))
  }

  /** Placing the same bet twice stores it once: the second call returns
      what the first returned and adds no bet. */
  lemma PlaceBetTwice(s: Collections, userId: Id, roomId: Id, choice: Choice, amount: int,
                      roundId: Option<Id>, now: int, amount': int, roundId': Option<Id>, later: int)
    requires PlaceBet(s, userId, roomId, choice, amount, roundId, now).result.Ok?
    ensures var first := PlaceBet(s, userId, roomId, choice, amount, roundId, now);
            var second := PlaceBet(first.after, userId, roomId, choice, amount', roundId', later);
            second.result == first.result && second.after.bets == first.after.bets
  {
  }

  /** As written, settlement reads no bets: a stored round's id is never a
      room id, and every stored bet carries a room id. */
  lemma SettlementReadsNoBets(s: Collections, roundId: Id)
    requires Inv(s) && roundId in s.rounds
    ensures SettledBets(s, roundId) == []
  {
  }

  /** As written, every settlement of a well-formed store selects 0. */
  lemma SettlementSelectsZero(s: Collections, roomId: Id, roundId: Id, w: int)
    requires Inv(s) && CanSettle(s, roomId, roundId)
    requires IsTable(BetTable(SettledBets(s, roundId)))
    requires IsSelected(BetTable(SettledBets(s, roundId)), TotalStake(SettledBets(s, roundId)), w)
    ensures w == 0
  {
    SettlementReadsNoBets(s, roundId);
    NoBetsSelectsZero(w);
  }

  /** As written, nobody wins anything: every stored multiplier is 0. */
  lemma WinningsAlwaysZero(s: Collections, userId: Id)
    requires Inv(s)
    ensures Total(BetsByUser(s.bets, userId), s.rounds) == 0
  {
    ZeroMultipliersPayNothing(BetsByUser(s.bets, userId), s.rounds);
  }

  /** One entry of a room's round history. */
  datatype RoundView = RoundView(roundId: Id, winningNumber: int, winner: seq<Id>)

  /** The history answer. The query selects the fields `rounds` and
      `roomName` but reads `name`, which is not selected, so the name is
      always absent. */
  datatype History = History(roomName: Option<string>, rounds: seq<RoundView>)

  /** `getRoomRoundsHistory`: fails for an unknown room, otherwise projects
      each stored round of the room's history, in order. */
  function GetRoomRoundsHistory(rooms: map<Id, Room>, roomId: Id): (r: Result<History>)
    ensures r.Err? <==> roomId !in rooms
    ensures r.Err? ==> r.error == RoomNotFound
    ensures r.Ok? ==> r.value.roomName == None && |r.value.rounds| == |rooms[roomId].rounds|
    ensures r.Ok? ==> forall i :: 0 <= i < |r.value.rounds| ==>
              var round := rooms[roomId].rounds[i];
              r.value.rounds[i] == RoundView(round.roundId, round.winningNumber, round.winner)
  {
    if roomId !in rooms then Err(RoomNotFound)
    else
      var rounds := rooms[roomId].rounds;
      Ok(History(None, seq(|rounds|, i requires 0 <= i < |rounds| =>
                                 RoundView(rounds[i].roundId, rounds[i].winningNumber, rounds[i].winner))))
  }

  /** As written, the history of every stored room is empty: nothing
      appends to it. */
  lemma HistoryAlwaysEmpty(s: Collections, roomId: Id)
    requires Inv(s) && roomId in s.rooms
    ensures GetRoomRoundsHistory(s.rooms, roomId) == Ok(History(None, []))
  {
  }
}
