/** Daily quests: progress (`handleUpdateQuestProgress`, src/App.tsx:550-576),
    reward claims (`handleClaimQuestReward`, src/App.tsx:968-998), and the quest
    list as shown (components/QuestsView.tsx:92-144). Both handlers update the
    local list first and undo that update when a write fails. */
module Quests {
  import opened Common
  import Sorting

  /** The `type` values of the `quests` collection. */
  datatype QuestType = AddOption | SpinRoulette | WinRoulette | WinDuel | WinChess | WinTictactoe | PokeUser

  /** The expanded `quest` relation of a user quest. */
  datatype QuestInfo = QuestInfo(kind: QuestType, targetCount: int, rewardPoints: int, rewardEnergy: int)

  /** A row of `user_quests`; `quest` is None when the relation was not expanded. */
  datatype UserQuest = UserQuest(id: Id, quest: Option<QuestInfo>, progress: int, completed: bool, claimed: bool)

  function QuestKey(q: UserQuest): Id
  {
    q.id
  }

  /** `uq.expand?.quest?.type === t && !uq.is_completed`. */
  predicate Open(q: UserQuest, t: QuestType)
  {
    q.quest.Some? && q.quest.value.kind == t && !q.completed
  }

  /** `userQuests.find(...)`: the position of the first open quest of type `t`. */
  function FindOpen(qs: seq<UserQuest>, t: QuestType): (r: Option<nat>)
    ensures r.None? <==> forall i :: 0 <= i < |qs| ==> !Open(qs[i], t)
    ensures r.Some? ==> r.value < |qs| && Open(qs[r.value], t) && forall i :: 0 <= i < r.value ==> !Open(qs[i], t)
  {
    if |qs| == 0 then None
    else if Open(qs[0], t) then Some(0)
    else
      match FindOpen(qs[1..], t)
      case None => None
      case Some(i) => Some(i + 1)
  }

  /** The quest after `amount` more steps: completed once the target is reached. */
  function Advanced(q: UserQuest, amount: int): (r: UserQuest)
    requires q.quest.Some?
    ensures r.id == q.id && r.quest == q.quest && r.claimed == q.claimed
    ensures r.progress == q.progress + amount
    ensures r.completed <==> q.progress + amount >= q.quest.value.targetCount
  {
    var p := q.progress + amount;
    q.(progress := p, completed := p >= q.quest.value.targetCount)
  }

  /** The local list after a progress call and whether a write was issued.
      `writeOk` says whether the remote update succeeded. */
  datatype Progress = Progress(quests: seq<UserQuest>, wrote: bool)

  /** `prev.map(q => q.id === id ? {...q, progress, is_completed} : q)`: every
      entry with the id takes the new progress and flag and keeps its other
      fields. */
  function SetProgress(qs: seq<UserQuest>, id: Id, progress: int, completed: bool): (r: seq<UserQuest>)
    ensures |r| == |qs|
    ensures forall i :: 0 <= i < |qs| ==>
      r[i] == (if qs[i].id == id then qs[i].(progress := progress, completed := completed) else qs[i])
  {
    seq(|qs|, i requires 0 <= i < |qs| =>
      if qs[i].id == id then qs[i].(progress := progress, completed := completed) else qs[i])
  }

  /** `handleUpdateQuestProgress`: the first open quest of the type moves on in
      the list at once (every entry sharing its id takes the new progress and
      completion flag); a failed write puts the snapshot taken before back in
      place of every entry sharing the id. */
  function UpdateProgress(qs: seq<UserQuest>, t: QuestType, amount: int, writeOk: bool): (r: Progress)
    ensures r.wrote <==> exists i :: 0 <= i < |qs| && Open(qs[i], t)
    ensures !r.wrote ==> r.quests == qs
    ensures |r.quests| == |qs|
    ensures r.wrote ==>
      var q := qs[FindOpen(qs, t).value];
      var p := q.progress + amount;
      forall i :: 0 <= i < |qs| ==>
        r.quests[i] == (if qs[i].id != q.id then qs[i]
                        else if writeOk then qs[i].(progress := p, completed := p >= q.quest.value.targetCount)
                        else q)
  {
    match FindOpen(qs, t)
    case None => Progress(qs, false)
    case Some(k) =>
      var q := qs[k];
      var p := q.progress + amount;
      var optimistic := SetProgress(qs, q.id, p, p >= q.quest.value.targetCount);
      Progress(if writeOk then optimistic else ReplaceByKey(optimistic, QuestKey, q), true)
  }

  /** With unique ids the revert of a failed progress write restores the list
      exactly, and a successful write changes only the one quest found. */
  lemma ProgressRevertRestores(qs: seq<UserQuest>, t: QuestType, amount: int)
    requires UniqueKeys(qs, QuestKey)
    ensures UpdateProgress(qs, t, amount, false).quests == qs
    ensures var r := UpdateProgress(qs, t, amount, true);
      r.wrote ==>
        var k := FindOpen(qs, t).value;
        && r.quests[k] == Advanced(qs[k], amount)
        && forall i :: 0 <= i < |qs| && i != k ==> r.quests[i] == qs[i]
  {
    var r := UpdateProgress(qs, t, amount, false);
    if r.wrote {
      var k := FindOpen(qs, t).value;
      forall i | 0 <= i < |qs| ensures r.quests[i] == qs[i] {
        if qs[i].id == qs[k].id {
          assert i == k;
        }
      }
    }
    var s := UpdateProgress(qs, t, amount, true);
    if s.wrote {
      var k := FindOpen(qs, t).value;
      forall i | 0 <= i < |qs| && i != k ensures s.quests[i] == qs[i] {
        assert qs[i].id != qs[k].id;
      }
    }
  }

  /** Two entries sharing an id: the update gives both the new progress while
      each keeps its own other fields, but the undo overwrites the second
      entry with a copy of the first. */
  lemma DuplicateIdsDefeatRevert()
    ensures var a := UserQuest("q", Some(QuestInfo(WinDuel, 1, 10, 0)), 0, false, false);
      var b := UserQuest("q", None, 5, true, true);
      && UpdateProgress([a, b], WinDuel, 1, true).quests == [Advanced(a, 1), UserQuest("q", None, 1, true, true)]
      && UpdateProgress([a, b], WinDuel, 1, false).quests == [a, a]
  {
  }

  // ----- reward claims -----

  /** The client's view of the user: points and energy. */
  datatype Wallet = Wallet(points: int, energy: int)

  /** Both sides of a claim: the local list and wallet, and what the store
      holds afterwards (whether the quest row is marked claimed, and whether
      the reward was credited). */
  datatype Claim = Claim(quests: seq<UserQuest>, wallet: Wallet, storedClaimed: bool, credited: bool)

  /** The claim guard: completed, not yet claimed, and the quest expanded. */
  predicate Claimable(q: UserQuest)
  {
    q.completed && !q.claimed && q.quest.Some?
  }

  function SetClaimed(qs: seq<UserQuest>, id: Id, v: bool): (r: seq<UserQuest>)
    ensures |r| == |qs|
    ensures forall i :: 0 <= i < |qs| ==> r[i] == (if qs[i].id == id then qs[i].(claimed := v) else qs[i])
  {
    seq(|qs|, i requires 0 <= i < |qs| => if qs[i].id == id then qs[i].(claimed := v) else qs[i])
  }

  /** `handleClaimQuestReward`: the quest is marked claimed and the reward
      added locally; then the quest row and the user row are written one after
      the other (the second only when the first succeeded); on any failure the
      local changes are undone by flipping the flag back and subtracting the
      reward. */
  function ClaimReward(qs: seq<UserQuest>, w: Wallet, q: UserQuest, okQuest: bool, okUser: bool): (r: Claim)
    ensures !Claimable(q) ==> r == Claim(qs, w, false, false)
    ensures Claimable(q) ==>
      var rp := q.quest.value.rewardPoints;
      var re := q.quest.value.rewardEnergy;
      && r.storedClaimed == okQuest
      && r.credited == (okQuest && okUser)
      && (r.credited ==> r.wallet == Wallet(w.points + rp, w.energy + re))
      && (!r.credited ==> r.wallet == w)
      && |r.quests| == |qs|
      && forall i :: 0 <= i < |qs| ==>
           r.quests[i] == (if qs[i].id == q.id then qs[i].(claimed := r.credited) else qs[i])
  {
    if !Claimable(q) then Claim(qs, w, false, false)
    else
      var rp := q.quest.value.rewardPoints;
      var re := q.quest.value.rewardEnergy;
      var optimisticQuests := SetClaimed(qs, q.id, true);
      var optimisticWallet := Wallet(w.points + rp, w.energy + re);
      if okQuest && okUser then Claim(optimisticQuests, optimisticWallet, true, true)
      else
        Claim(SetClaimed(optimisticQuests, q.id, false),
              Wallet(optimisticWallet.points - rp, optimisticWallet.energy - re),
              okQuest, false)
  }

  /** When the quest write succeeds but the user write fails, the store has
      the quest claimed yet never credited the reward, while the client shows
      it unclaimed again: the reward is lost unless the user claims it again. */
  lemma HalfClaimLosesReward(qs: seq<UserQuest>, w: Wallet, q: UserQuest)
    requires Claimable(q) && q in qs
    ensures var r := ClaimReward(qs, w, q, true, false);
      && r.storedClaimed && !r.credited && r.wallet == w
      && (forall x :: x in r.quests && x.id == q.id ==> !x.claimed)
  {
  }

  /** A claim pays out at most once: after a successful claim every entry
      of the list with that id is claimed, so claiming it again is refused. */
  lemma ClaimOnce(qs: seq<UserQuest>, w: Wallet, q: UserQuest, again: UserQuest, okQuest2: bool, okUser2: bool)
    requires Claimable(q)
    requires again in ClaimReward(qs, w, q, true, true).quests && again.id == q.id
    ensures var r := ClaimReward(qs, w, q, true, true);
      ClaimReward(r.quests, r.wallet, again, okQuest2, okUser2) == Claim(r.quests, r.wallet, false, false)
  {
    var r := ClaimReward(qs, w, q, true, true);
    var i :| 0 <= i < |r.quests| && r.quests[i] == again;
  }

  // ----- the quest list view -----

  /** `isClaimable` of the view (the expansion is checked separately when the card renders). */
  predicate ShowsClaimable(q: UserQuest)
  {
    q.completed && !q.claimed
  }

  /** The button label. */
  function ButtonLabel(q: UserQuest): (s: string)
    ensures q.claimed ==> s == "Выполнено"
    ensures !q.claimed && q.completed ==> s == "Забрать"
    ensures !q.claimed && !q.completed ==> s == "В процессе"
  {
    if q.claimed then "Выполнено" else if ShowsClaimable(q) then "Забрать" else "В процессе"
  }

  /** The button is enabled exactly on a claimable quest, which is exactly the
      one labelled "Забрать". */
  lemma EnabledIffTakeLabel(q: UserQuest)
    ensures ShowsClaimable(q) <==> ButtonLabel(q) == "Забрать"
  {
  }

  /** The `sortedQuests` comparator, as written. */
  function QuestCompare(a: UserQuest, b: UserQuest): int
  {
    if a.claimed != b.claimed then (if a.claimed then 1 else -1)
    else if a.completed != b.completed then (if a.completed then -1 else 1)
    else 0
  }

  /** The comparator's "no later than" relation. */
  function QuestOrder(): (le: (UserQuest, UserQuest) -> bool)
    ensures Sorting.TotalPreorder(le)
    ensures forall a, b :: le(a, b) <==> QuestCompare(a, b) <= 0
  {
    (a: UserQuest, b: UserQuest) => QuestCompare(a, b) <= 0
  }

  /** `[...userQuests].sort(...)`: a permutation of the list in which unclaimed
      quests come first and, among quests alike in that, completed ones. */
  function SortQuests(qs: seq<UserQuest>): (r: seq<UserQuest>)
    ensures multiset(r) == multiset(qs)
    ensures forall i, j :: 0 <= i < j < |r| && r[i].claimed ==> r[j].claimed
    ensures forall i, j :: 0 <= i < j < |r| && r[i].claimed == r[j].claimed && !r[i].completed ==> !r[j].completed
  {
    var r := Sorting.Sort(qs, QuestOrder());
    QuestOrderFacts(r);
    r
  }

  /** What a list sorted by the comparator looks like, pair by pair. */
  lemma QuestOrderFacts(r: seq<UserQuest>)
    requires Sorting.Sorted(r, QuestOrder())
    ensures forall i, j :: 0 <= i < j < |r| ==> QuestCompare(r[i], r[j]) <= 0
  {
    forall i, j | 0 <= i < j < |r| ensures QuestCompare(r[i], r[j]) <= 0 {
      assert QuestOrder()(r[i], r[j]);
    }
  }
}
