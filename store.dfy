/** The document store the room service and the bet service share, as an
    object whose collections the services update in place. Each method
    performs the transition `Lifecycle` describes and keeps the store
    invariant. */
module Store {
  import opened Domain
  import opened BetQueries
  import opened Settlement
  import Lifecycle

  class Db {
    var rooms: map<Id, Room>
    var rounds: map<Id, Round>
    var bets: seq<Bet>
    var users: map<Id, User>
    /** The fresh-id supply standing in for ObjectId generation. */
    var nextId: Id

    function Contents(): Collections
      reads this
    {
      Collections(rooms, rounds, bets, users, nextId)
    }

    ghost predicate Valid()
      reads this
    {
      Lifecycle.Inv(Contents())
    }

    /** An empty store over the given user accounts. */
    constructor (accounts: map<Id, User>)
      ensures Valid() && Contents() == Collections(map[], map[], [], accounts, 0)
    {
      rooms, rounds, bets, users, nextId := map[], map[], [], accounts, 0;
    }

    /** `createRoom`. */
    method CreateRoom(name: string, drawInterval: int) returns (room: Room)
      requires Valid()
      modifies this
      ensures Valid()
      ensures Lifecycle.Made(room, Contents()) == Lifecycle.CreateRoom(old(Contents()), name, drawInterval)
    {
      room := Lifecycle.NewRoom(nextId, name, drawInterval);
      rooms := rooms[nextId := room];
      nextId := nextId + 1;
    }

    /** `createNewRound`. */
    method CreateNewRound(roomId: Id, now: int) returns (round: Round)
      requires Valid()
      modifies this
      ensures Valid()
      ensures Lifecycle.Made(round, Contents()) == Lifecycle.CreateNewRound(old(Contents()), roomId, now)
    {
      round := Lifecycle.NewRound(nextId, roomId, now);
      rounds := rounds[nextId := round];
      nextId := nextId + 1;
    }

    /** `closeRound`: checks the round, settles it (the outcome is only
      announced), marks the round closed and opens the next one. */
    method CloseRound(roomId: Id, roundId: Id, now: int) returns (r: Result<Round>)
      requires Valid()
      modifies this
      ensures Valid()
      ensures Lifecycle.Step(r, Contents()) == Lifecycle.CloseRound(old(Contents()), roomId, roundId, now)
    {
      if roundId !in rounds || rounds[roundId].status == Closed {
        return Err(CloseRoundFailed);
      }
      var settled := SettleBets(Contents(), roomId, roundId);
      if settled.Err? {
        return Err(CloseRoundFailed);
      }
      rounds := rounds[roundId := rounds[roundId].(status := Closed, endedAt := Some(now))];
      var round := CreateNewRound(roomId, now);
      r := Ok(round);
    }

    /** `placeBet`, without the settlement timer. */
    method PlaceBet(userId: Id, roomId: Id, choice: Choice, amount: int, roundId: Option<Id>, now: int)
      returns (r: Result<Bet>)
      requires Valid()
      modifies this
      ensures Valid()
      ensures Lifecycle.Step(r, Contents()) ==
                Lifecycle.PlaceBet(old(Contents()), userId, roomId, choice, amount, roundId, now)
    {
      if roomId !in rooms || rooms[roomId].status != Open {
        return Err(RoomNotOpenOrMissing);
      }
      if !UserExists(users, userId) {
        return Err(UserDoesNotExist);
      }
      var round: Round;
      if roundId.Some? && roundId.value in rounds && rounds[roundId.value].status == Open {
        round := rounds[roundId.value];
      } else {
        round := CreateNewRound(roomId, now);
      }
      match FindBet(bets, userId, roomId, choice)
      case Some(i) =>
        r := Ok(bets[i]);
      case None =>
        var bet := Bet(userId, roomId, round.roundId, choice, amount);
        bets := bets + [bet];
        r := Ok(bet);
    }
  }
}
