/** `handlePokeUser` (src/App.tsx:620-646): a player pays `POKE_COST` points to
    "poke" another, who receives one point. The local balance is lowered at
    once and, if either write fails, the snapshot taken before is put back. */
module Poke {
  import opened Common
  import Ledger

  /** `POKE_COST`: what a poke costs the poker. */
  const POKE_COST: int := 5

  /** What the poked player receives. */
  const POKE_GIFT: int := 1

  /** The client's user after the call, the store's balances, and whether the
      POKE_USER quest progressed. */
  datatype PokeOutcome = PokeOutcome(local: User, balances: Ledger.Balances, questFired: bool)

  /** The handler with the confirmation answer and the outcome of the two
      writes as inputs. The two writes run together; the call succeeds only
      when both land. */
  function PokeUser(me: User, target: Id, confirmed: bool, b: Ledger.Balances,
                    okSelf: bool, okTarget: bool): (r: PokeOutcome)
    ensures me.points < POKE_COST || !confirmed ==> r == PokeOutcome(me, b, false)
    ensures r.questFired <==>
      me.points >= POKE_COST && confirmed && Ledger.Lands(b, me.id, okSelf) && Ledger.Lands(b, target, okTarget)
    ensures r.questFired ==> r.local == me.(points := me.points - POKE_COST)
    ensures !r.questFired ==> r.local == me
    ensures r.balances.Keys == b.Keys
    ensures me.points >= POKE_COST && confirmed ==>
      forall u :: u in b && u != me.id && u != target ==> r.balances[u] == b[u]
  {
    if me.points < POKE_COST || !confirmed then PokeOutcome(me, b, false)
    else
      var optimistic := me.(points := me.points - POKE_COST);
      var afterSelf := Ledger.Adjust(b, me.id, -POKE_COST, okSelf);
      var afterTarget := Ledger.Adjust(afterSelf, target, POKE_GIFT, okTarget);
      var both := Ledger.Lands(b, me.id, okSelf) && Ledger.Lands(b, target, okTarget);
      PokeOutcome(if both then optimistic else me, afterTarget, both)
  }

  /** A successful poke takes 5 points from the poker and gives 1 to the poked
      player: the pair's total drops by 4, and the client's balance agrees
      with the store's. */
  lemma PokeBurnsPoints(me: User, target: Id, b: Ledger.Balances)
    requires me.id in b && target in b && me.id != target && b[me.id] == me.points
    requires me.points >= POKE_COST
    ensures var r := PokeUser(me, target, true, b, true, true);
      && r.balances[me.id] == b[me.id] - POKE_COST
      && r.balances[target] == b[target] + POKE_GIFT
      && r.balances[me.id] + r.balances[target] == b[me.id] + b[target] - 4
      && r.local.points == r.balances[me.id]
  {
  }

  /** The revert restores the snapshot whatever reached the store: when the
      charge lands but the gift does not, the store has charged the poker
      while the client shows the old balance. */
  lemma HalfPokeDesyncs(me: User, target: Id, b: Ledger.Balances)
    requires me.id in b && target in b && me.id != target && b[me.id] == me.points
    requires me.points >= POKE_COST
    ensures var r := PokeUser(me, target, true, b, true, false);
      && r.local == me && !r.questFired
      && r.balances[me.id] == me.points - POKE_COST
      && r.balances[target] == b[target]
  {
  }
}
