/** The shape shared by chess and tic-tac-toe games and their challenge
    lifecycle: initiate (src/App.tsx:718-741, 852-874), accept
    (src/App.tsx:743-759, 876-892) and decline (src/App.tsx:761-764, 894-897).
    Both variants use the same status strings and the same cost guards. */
module Game {
  import opened Common

  /** The statuses the chess and tic-tac-toe code writes and tests. */
  datatype GameStatus = Pending | Ongoing | Completed | Declined | Cancelled

  /** A row of `chess_games` or `tictactoe_games`. `first` is the challenger
      (`player_white` / `player_x`), `second` the invited player (`player_black` /
      `player_o`); `play` is the variant's board state. */
  datatype Game<B> = Game(
    id: Id,
    first: Id,
    second: Id,
    stake: int,
    status: GameStatus,
    winner: Option<Id>,
    created: int,
    play: B)

  predicate IsParticipant<B>(g: Game<B>, me: Id)
  {
    g.first == me || g.second == me
  }

  /** Why a challenge was not created. */
  datatype InitiateError = InsufficientPoints | NotConfirmed | CreateFailed

  /** `handleInitiateChess` / `handleInitiateTictactoe`: both players must hold at
      least `cost` points, the challenger must confirm, and the create request
      must succeed; the new game is pending, owned by the challenger as first
      player, staked at `cost`, with the variant's initial board. */
  function Initiate<B>(me: Option<User>, opponent: User, cost: int, confirmed: bool, createOk: bool,
                       id: Id, created: int, initial: B): (r: Result<Game<B>, InitiateError>)
    ensures r.Ok? <==> me.Some? && me.value.points >= cost && opponent.points >= cost && confirmed && createOk
    ensures me.None? || me.value.points < cost || opponent.points < cost ==> r == Err(InsufficientPoints)
    ensures r.Ok? ==>
      && r.value.id == id && r.value.status == Pending
      && r.value.first == me.value.id && r.value.second == opponent.id
      && r.value.stake == cost && r.value.winner.None? && r.value.play == initial
  {
    if me.None? || me.value.points < cost || opponent.points < cost then Err(InsufficientPoints)
    else if !confirmed then Err(NotConfirmed)
    else if !createOk then Err(CreateFailed)
    else Ok(Game(id, me.value.id, opponent.id, cost, Pending, None, created, initial))
  }

  /** The status an accepting client writes: a player without enough points
      turns the challenge into `declined` instead of leaving it pending. */
  function AcceptStatus(me: Option<User>, cost: int): (s: GameStatus)
    ensures s == Declined <==> me.None? || me.value.points < cost
    ensures s == Ongoing <==> me.Some? && me.value.points >= cost
  {
    if me.None? || me.value.points < cost then Declined else Ongoing
  }

  /** `handleAcceptChess` / `handleAcceptTictactoe` against the stored row. Only
      the status is written; no balance is touched by accepting. The handler
      checks neither the current status nor that the caller is the invited player. */
  function Accept<B>(g: Game<B>, me: Option<User>, cost: int, writeOk: bool): (r: Game<B>)
    ensures !writeOk ==> r == g
    ensures writeOk ==> r.status == AcceptStatus(me, cost)
    ensures r.(status := g.status) == g
  {
    if writeOk then g.(status := AcceptStatus(me, cost)) else g
  }

  /** `handleDeclineChess` / `handleDeclineTictactoe`: writes `declined`, nothing else. */
  function Decline<B>(g: Game<B>, writeOk: bool): (r: Game<B>)
    ensures writeOk ==> r.status == Declined
    ensures !writeOk ==> r == g
    ensures r.(status := g.status) == g
  {
    if writeOk then g.(status := Declined) else g
  }

  /** Worked example: a player holding 4 points accepts a 5-point challenge; the
      game goes straight to `declined`, never to `ongoing`. */
  lemma AcceptWithoutFundsDeclines<B>(g: Game<B>, me: User)
    requires g.status == Pending && me.points == 4
    ensures Accept(g, Some(me), 5, true).status == Declined
    ensures Accept(g, Some(me), 5, false).status == Pending
  {
  }
}
