/** Points balances as the remote store holds them, and stake settlement: the two
    independent relative writes (`points+` to the winner, `points-` to the loser)
    that every game handler issues in one `Promise.all` once a game completes
    with a winner (src/App.tsx:686-698, 814-828, 931-948). */
module Ledger {
  import opened Common

  /** The `points` field of every user row, by user id. */
  type Balances = map<Id, int>

  /** A relative points write takes effect when the request goes through and
      the target row exists (an update of a missing record is rejected). */
  predicate Lands(b: Balances, user: Id, ok: bool)
  {
    ok && user in b
  }

  /** `update(user, {'points+': delta})` (a negative delta is `points-`). */
  function Adjust(b: Balances, user: Id, delta: int, ok: bool): (r: Balances)
    ensures r.Keys == b.Keys
    ensures forall u :: u in b && u != user ==> r[u] == b[u]
    ensures Lands(b, user, ok) ==> r[user] == b[user] + delta
    ensures !Lands(b, user, ok) ==> r == b
  {
    if Lands(b, user, ok) then b[user := b[user] + delta] else b
  }

  /** The settlement of one finished game: `amount` from `loser` to `winner`. */
  datatype Transfer = Transfer(winner: Id, loser: Id, amount: int)

  /** The combined balance of the two players of a transfer. */
  function PairTotal(b: Balances, t: Transfer): int
    requires t.winner in b && t.loser in b
  {
    if t.winner == t.loser then b[t.winner] else b[t.winner] + b[t.loser]
  }

  /** The result of settling: the balances afterwards, and whether the
      `Promise.all` over both writes resolved (both writes took effect). */
  datatype Settled = Settled(balances: Balances, bothLanded: bool)

  /** Issues both writes of `t`; `okWinner` and `okLoser` say whether each request
      succeeds. The two writes are independent: one may land without the other. */
  function Settle(b: Balances, t: Transfer, okWinner: bool, okLoser: bool): (r: Settled)
    ensures r.balances.Keys == b.Keys
    ensures r.bothLanded <==> Lands(b, t.winner, okWinner) && Lands(b, t.loser, okLoser)
    ensures forall u :: u in b && u != t.winner && u != t.loser ==> r.balances[u] == b[u]
    ensures r.bothLanded && t.winner != t.loser ==>
      r.balances[t.winner] == b[t.winner] + t.amount && r.balances[t.loser] == b[t.loser] - t.amount
    ensures r.bothLanded ==> PairTotal(r.balances, t) == PairTotal(b, t)
    ensures !Lands(b, t.winner, okWinner) && !Lands(b, t.loser, okLoser) ==> r.balances == b
  {
    var afterWinner := Adjust(b, t.winner, t.amount, okWinner);
    var afterLoser := Adjust(afterWinner, t.loser, -t.amount, okLoser);
    Settled(afterLoser, Lands(b, t.winner, okWinner) && Lands(b, t.loser, okLoser))
  }

  /** Settles when there is a transfer; a draw (no transfer) touches no balance. */
  function SettleIfAny(b: Balances, t: Option<Transfer>, okWinner: bool, okLoser: bool): (r: Settled)
    ensures t.None? ==> r.balances == b && r.bothLanded
    ensures t.Some? ==> r == Settle(b, t.value, okWinner, okLoser)
  {
    match t
    case None => Settled(b, true)
    case Some(tr) => Settle(b, tr, okWinner, okLoser)
  }

  /** A half-applied settlement (one write landed, the other did not) changes the
      pair's total by exactly the stake: the known inconsistency that the client
      only logs and never repairs. */
  lemma PartialSettlementShiftsTotal(b: Balances, t: Transfer, okWinner: bool, okLoser: bool)
    requires t.winner in b && t.loser in b && t.winner != t.loser
    requires Lands(b, t.winner, okWinner) != Lands(b, t.loser, okLoser)
    ensures var r := Settle(b, t, okWinner, okLoser).balances;
      PairTotal(r, t) == PairTotal(b, t) + (if okWinner then t.amount else -t.amount)
  {
  }
}
