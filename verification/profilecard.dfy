/** The favourite category on a profile card (components/ProfileCard.tsx:12-25):
    the user's own wins are counted by category, an empty category counting
    as "разное", and the most frequent category is shown, or "—" when the
    user has no wins. */
module ProfileCard {
  import opened Common

  /** What the card reads of a win record: `win.option.authorId` and
      `win.option.category`. */
  datatype Win = Win(authorId: Id, category: string)

  /** `win.option.category || 'разное'`. */
  function Label(w: Win): (c: string)
    ensures c != ""
    ensures w.category != "" ==> c == w.category
  {
    if w.category == "" then "разное" else w.category
  }

  /** The labels of a list of wins, in order. */
  function Labels(ws: seq<Win>): (ls: seq<string>)
    ensures |ls| == |ws|
    ensures forall i :: 0 <= i < |ws| ==> ls[i] == Label(ws[i])
  {
    seq(|ws|, i requires 0 <= i < |ws| => Label(ws[i]))
  }

  /** The `reduce` that builds `categories`: one entry per label, holding the
      number of times it occurs. */
  function Tally(ls: seq<string>): (m: map<string, int>)
    ensures forall c :: c in m <==> c in ls
    ensures forall c :: c in m ==> m[c] == multiset(ls)[c] && m[c] >= 1
    decreases |ls|
  {
    if |ls| == 0 then map[]
    else
      var init := ls[..|ls| - 1];
      var c := ls[|ls| - 1];
      assert ls == init + [c];
      var m := Tally(init);
      m[c := (if c in m then m[c] else 0) + 1]
  }

  /** `Object.keys(categories)`: each label once, in order of first appearance. */
  function KeyOrder(ls: seq<string>): (keys: seq<string>)
    ensures forall c :: c in keys <==> c in ls
    ensures forall i, j :: 0 <= i < j < |keys| ==> keys[i] != keys[j]
    ensures forall i, j :: 0 <= i < j < |keys| ==> IndexIn(ls, keys[i]) < IndexIn(ls, keys[j])
    decreases |ls|
  {
    if |ls| == 0 then []
    else
      var init := ls[..|ls| - 1];
      var c := ls[|ls| - 1];
      assert ls == init + [c];
      AppendKeepsFirstIndices(init, c);
      var keys := KeyOrder(init);
      if c in keys then keys else keys + [c]
  }

  /** `keys[a]` is a last maximum of the first `k` keys: no earlier key counts
      more, and every later one counts less. */
  predicate LastMaxOf(m: map<string, int>, keys: seq<string>, a: int, k: int)
    requires 0 <= a < k <= |keys| && forall c :: c in keys ==> c in m
  {
    && (forall j :: 0 <= j < k ==> m[keys[j]] <= m[keys[a]])
    && (forall j :: a < j < k ==> m[keys[j]] < m[keys[a]])
  }

  /** The comparison step of the reduce from key `k` on: the accumulator
      `keys[a]` is kept only while it counts strictly more. */
  function Reduce(m: map<string, int>, keys: seq<string>, a: int, k: int): (i: int)
    requires 0 <= a < k <= |keys| && forall c :: c in keys ==> c in m
    requires LastMaxOf(m, keys, a, k)
    ensures a <= i < |keys|
    ensures LastMaxOf(m, keys, i, |keys|)
    decreases |keys| - k
  {
    if k == |keys| then a
    else
      var next := if m[keys[a]] > m[keys[k]] then a else k;
      Reduce(m, keys, next, k + 1)
  }

  /** `Object.keys(categories).reduce((a, b) => categories[a] > categories[b] ? a : b)`
      over the labels `ls`. */
  function MostFrequent(ls: seq<string>): (r: string)
    requires |ls| > 0
    ensures r in ls
  {
    var keys := KeyOrder(ls);
    var m := Tally(ls);
    assert ls[0] in keys;
    keys[Reduce(m, keys, 0, 1)]
  }

  /** The label chosen occurs at least as often as any other, and every label
      whose first occurrence comes after it occurs less often: of the most
      frequent labels the one first seen last is chosen. */
  lemma MostFrequentIsLastMaximum(ls: seq<string>)
    requires |ls| > 0
    ensures var r := MostFrequent(ls);
      && (forall c :: c in ls ==> multiset(ls)[c] <= multiset(ls)[r])
      && var keys := KeyOrder(ls);
         forall i, j :: 0 <= i < j < |keys| && keys[i] == r ==> multiset(ls)[keys[j]] < multiset(ls)[r]
  {
    var keys := KeyOrder(ls);
    var m := Tally(ls);
    assert ls[0] in keys;
    var i := Reduce(m, keys, 0, 1);
    var r := keys[i];
    forall c | c in ls ensures multiset(ls)[c] <= multiset(ls)[r] {
      var q :| 0 <= q < |keys| && keys[q] == c;
      assert m[keys[q]] <= m[keys[i]];
    }
    forall a, j | 0 <= a < j < |keys| && keys[a] == r
      ensures multiset(ls)[keys[j]] < multiset(ls)[r]
    {
      assert a == i;
      assert m[keys[j]] < m[keys[i]];
    }
  }

  /** `winHistory.filter(win => win.option.authorId === user.id)`. */
  function OwnWins(history: seq<Win>, user: Id): (own: seq<Win>)
    ensures forall w :: w in own <==> w in history && w.authorId == user
  {
    Filter(history, (w: Win) => w.authorId == user)
  }

  /** `getFavoriteCategory`: "—" without own wins, else the most frequent
      label of the user's own wins. */
  function FavoriteCategory(history: seq<Win>, user: Id): (r: string)
    ensures (forall w :: w in history ==> w.authorId != user) ==> r == "—"
    ensures (exists w :: w in history && w.authorId == user) ==>
      exists w :: w in history && w.authorId == user && Label(w) == r
  {
    var own := OwnWins(history, user);
    if |own| == 0 then "—"
    else
      var ls := Labels(own);
      var r := MostFrequent(ls);
      assert own[IndexIn(ls, r)] in own;
      r
  }

  /** The first position of `x` in `s`. */
  function IndexIn<T(==)>(s: seq<T>, x: T): (i: int)
    requires x in s
    ensures 0 <= i < |s| && s[i] == x
    ensures forall j :: 0 <= j < i ==> s[j] != x
  {
    if s[0] == x then 0
    else
      var i := 1 + IndexIn(s[1..], x);
      assert forall j :: 1 <= j < i ==> s[j] == s[1..][j - 1];
      i
  }

  /** Appending an element moves no first position, and a new element is
      first found at the end. */
  lemma AppendKeepsFirstIndices<T>(s: seq<T>, c: T)
    ensures forall x :: x in s ==> IndexIn(s + [c], x) == IndexIn(s, x)
    ensures c !in s ==> IndexIn(s + [c], c) == |s|
  {
    forall x | x in s
      ensures IndexIn(s + [c], x) == IndexIn(s, x)
    {
      var k := IndexIn(s, x);
      var i := IndexIn(s + [c], x);
      assert (s + [c])[k] == x;
      assert i <= k;
      assert s[i] == x;
    }
  }

  /** How often the user's own wins carry label `c`. */
  function OwnCount(history: seq<Win>, user: Id, c: string): nat
  {
    multiset(Labels(OwnWins(history, user)))[c]
  }

  /** With at least one own win, no label of the user's wins is more frequent
      than the favourite, and of equally frequent labels the one whose first
      win comes last is shown. */
  lemma FavoriteIsLastMostFrequent(history: seq<Win>, user: Id)
    requires exists w :: w in history && w.authorId == user
    ensures var r := FavoriteCategory(history, user);
      && (forall w :: w in history && w.authorId == user ==> OwnCount(history, user, Label(w)) <= OwnCount(history, user, r))
      && var keys := KeyOrder(Labels(OwnWins(history, user)));
         forall i, j :: 0 <= i < j < |keys| && keys[i] == r ==> OwnCount(history, user, keys[j]) < OwnCount(history, user, r)
  {
    var own := OwnWins(history, user);
    var w0 :| w0 in history && w0.authorId == user;
    assert w0 in own;
    var ls := Labels(own);
    MostFrequentIsLastMaximum(ls);
    forall w | w in history && w.authorId == user
      ensures Label(w) in ls
    {
      assert ls[IndexIn(own, w)] == Label(w);
    }
  }

  /** Worked example: a win in "еда" followed by a win with no category tie
      at one each, and the later key, "разное", is shown. */
  lemma TieGoesToTheLaterKey()
    ensures MostFrequent(Labels([Win("u", "еда"), Win("u", "")])) == "разное"
  {
    var ls := Labels([Win("u", "еда"), Win("u", "")]);
    assert ls == ["еда", "разное"];
    ExampleTally(ls);
  }

  lemma ExampleKeys(ls: seq<string>)
    requires ls == ["еда", "разное"]
    ensures KeyOrder(ls) == ["еда", "разное"]
  {
    assert ls[..1] == ["еда"] && ls[..1][..0] == [];
    assert KeyOrder(ls[..1]) == ["еда"];
  }

  lemma ExampleTally(ls: seq<string>)
    requires ls == ["еда", "разное"]
    ensures MostFrequent(ls) == "разное"
  {
    ExampleKeys(ls);
    ExampleCounts(ls);
    var keys := KeyOrder(ls);
    var m := Tally(ls);
    assert Reduce(m, keys, 0, 1) == Reduce(m, keys, 1, 2);
  }

  lemma ExampleCounts(ls: seq<string>)
    requires ls == ["еда", "разное"]
    ensures Tally(ls)["еда"] == 1 && Tally(ls)["разное"] == 1
  {
    assert multiset(ls)["еда"] == 1;
  }
}
