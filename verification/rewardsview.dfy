/** The rewards shop (components/RewardsView.tsx): an empty shop shows a
    placeholder (lines 11-19); otherwise the rewards are listed cheapest first
    (line 21) under the user's balance (line 29), each with a buy button that
    is disabled when the balance does not cover the cost (line 43). */
module RewardsView {
  import opened Common
  import Sorting

  /** A row of `rewards`, restricted to what the shop's logic reads. */
  datatype Reward = Reward(id: Id, name: string, cost: int)

  /** `(a, b) => a.cost - b.cost` as "no later than". */
  function CheapestFirst(): (le: (Reward, Reward) -> bool)
    ensures Sorting.TotalPreorder(le)
    ensures forall a, b :: le(a, b) <==> a.cost <= b.cost
  {
    (a: Reward, b: Reward) => a.cost - b.cost <= 0
  }

  /** `currentUser.points || 0`: a missing (or zero) balance reads as 0. */
  function Balance(points: Option<int>): (v: int)
    ensures points.None? ==> v == 0
    ensures points.Some? ==> v == points.value
  {
    match points
    case None => 0
    case Some(p) => p
  }

  /** One listed reward and whether its buy button is disabled. */
  datatype Item = Item(reward: Reward, disabled: bool)

  /** The rewards of a list of items, in order. */
  function RewardsOf(items: seq<Item>): (rs: seq<Reward>)
    ensures |rs| == |items|
    ensures forall i :: 0 <= i < |items| ==> rs[i] == items[i].reward
  {
    seq(|items|, i requires 0 <= i < |items| => items[i].reward)
  }

  /** What the shop shows. */
  datatype Shop = EmptyShop | Listing(balance: int, items: seq<Item>)

  /** The component's output for a list of rewards and the user's points. */
  function ShowShop(rewards: seq<Reward>, points: Option<int>): (v: Shop)
    ensures v == EmptyShop <==> |rewards| == 0
    ensures v.Listing? ==>
      && v.balance == Balance(points)
      && |v.items| == |rewards|
      && multiset(RewardsOf(v.items)) == multiset(rewards)
      && (forall i, j :: 0 <= i < j < |v.items| ==> v.items[i].reward.cost <= v.items[j].reward.cost)
      && (forall i :: 0 <= i < |v.items| ==> (v.items[i].disabled <==> v.balance < v.items[i].reward.cost))
  {
    if |rewards| == 0 then EmptyShop
    else
      var sorted := Sorting.Sort(rewards, CheapestFirst());
      CheapestFirstFacts(sorted);
      var items := seq(|sorted|, i requires 0 <= i < |sorted| => Item(sorted[i], Balance(points) < sorted[i].cost));
      assert RewardsOf(items) == sorted;
      Listing(Balance(points), items)
  }

  lemma CheapestFirstFacts(r: seq<Reward>)
    requires Sorting.Sorted(r, CheapestFirst())
    ensures forall i, j :: 0 <= i < j < |r| ==> r[i].cost <= r[j].cost
  {
    forall i, j | 0 <= i < j < |r| ensures CheapestFirst()(r[i], r[j]) {
    }
  }

  /** The rewards the user can buy are a prefix of the list: once a button is
      disabled, so is every button after it. */
  lemma AffordableRewardsComeFirst(rewards: seq<Reward>, points: Option<int>, i: int, j: int)
    requires ShowShop(rewards, points).Listing?
    requires 0 <= i < j < |ShowShop(rewards, points).items|
    requires ShowShop(rewards, points).items[i].disabled
    ensures ShowShop(rewards, points).items[j].disabled
  {
  }

  /** Every reward is listed, with its button enabled exactly when the balance
      covers its cost. */
  lemma EveryRewardListed(rewards: seq<Reward>, points: Option<int>, x: Reward)
    requires x in rewards
    ensures ShowShop(rewards, points).Listing?
    ensures Item(x, Balance(points) < x.cost) in ShowShop(rewards, points).items
  {
    var v := ShowShop(rewards, points);
    var rs := RewardsOf(v.items);
    assert x in multiset(rs);
    var k :| 0 <= k < |rs| && rs[k] == x;
    assert v.items[k] == Item(x, Balance(points) < x.cost);
  }
}
