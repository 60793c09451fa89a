/** The entities of the betting game's store: rooms, rounds, bets and users.
    Every collection of the document store is a value here; a store
    snapshot bundles them with the supply of fresh identifiers. */
module Domain {

  /** A document identifier. Fresh ones are drawn from a counter. */
  type Id = nat

  datatype Option<+T> = None | Some(value: T)

  /** One error kind per message the services throw. */
  datatype Error =
    | RoomNotOpenOrMissing    // "Room is not open or does not exist"
    | RoundNotOpenOrMissing   // "Round is not open or does not exist"
    | UserDoesNotExist        // "User does not exist" (bet placement)
    | UserNotFound            // "User not found" (wallet check)
    | RoomNotFound            // "Room not found" (round history)
    | CloseRoundFailed        // "Failed to close round": every failure of closeRound

  datatype Result<+T> = Ok(value: T) | Err(error: Error)

  /** Status of a room or of a round. */
  datatype Status = Open | Closed

  /** What a bet is on: a number (nothing restricts it to 0..9) or one of
      the two parity outcomes. */
  datatype Choice = Number(n: int) | Odd | Even

  datatype Bet = Bet(userId: Id, roomId: Id, roundId: Id, choice: Choice, amount: int)

  datatype Round = Round(
    roundId: Id,
    roomId: Id,
    winningNumber: int,
    winner: seq<Id>,
    payoutMultiplier: int,
    status: Status,
    startedAt: int,
    endedAt: Option<int>)

  datatype Room = Room(id: Id, name: string, status: Status, drawInterval: int, rounds: seq<Round>)

  /** The only user field the core reads. */
  datatype User = User(walletBalance: int)

  /** The store: rooms by id, rounds by round id, bets in insertion order,
      users by id, and the next unused identifier. */
  datatype Collections = Collections(
    rooms: map<Id, Room>,
    rounds: map<Id, Round>,
    bets: seq<Bet>,
    users: map<Id, User>,
    nextId: Id)
}
