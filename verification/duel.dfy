/** The rock-paper-scissors duel: the `CHOICES` table (src/App.tsx:30-34) and
    `handleMakeDuelChoice` (src/App.tsx:654-714). A duel is a blind
    simultaneous-choice game: the first chooser moves it to a "waiting" status,
    the second choice completes it and names the winner in the same write. */
module Duel {
  import opened Common
  import Ledger

  datatype Choice = Rock | Paper | Scissors

  /** `CHOICES[c].beats`: the one choice that `c` defeats. */
  function Beats(c: Choice): (r: Choice)
    ensures r != c
  {
    match c
    case Rock => Scissors
    case Paper => Rock
    case Scissors => Paper
  }

  /** The beats relation is a 3-cycle: nothing beats itself, applying it three
      times comes back, and of two different choices exactly one beats the other. */
  lemma BeatsIsThreeCycle(c: Choice)
    ensures Beats(c) != c && Beats(Beats(c)) != c
    ensures Beats(Beats(Beats(c))) == c
    ensures forall d :: d != c ==> (Beats(c) == d) != (Beats(d) == c)
  {
    match c
    case Rock =>
    case Paper =>
    case Scissors =>
  }

  /** How a duel ends, seen from the player who makes the second choice. */
  datatype Outcome = MoverWins | OtherWins | Draw

  /** The decision of the handler: the mover wins when their pick beats the
      other pick, loses when the other pick beats theirs, and otherwise draws. */
  function Resolve(mine: Choice, theirs: Choice): (r: Outcome)
    ensures r == Draw <==> mine == theirs
    ensures r == MoverWins <==> Beats(mine) == theirs
    ensures r == OtherWins <==> Beats(theirs) == mine
  {
    BeatsIsThreeCycle(mine);
    if Beats(mine) == theirs then MoverWins
    else if Beats(theirs) == mine then OtherWins
    else Draw
  }

  /** Swapping the two picks swaps the outcome. */
  lemma ResolveIsAntisymmetric(a: Choice, b: Choice)
    ensures Resolve(a, b) == MoverWins <==> Resolve(b, a) == OtherWins
    ensures Resolve(a, b) == Draw <==> Resolve(b, a) == Draw
  {
  }

  /** types.ts `DuelStatus`. */
  datatype DuelStatus =
    | Pending | Accepted | ChallengerChose | OpponentChose
    | Completed | Declined | Cancelled | Expired

  /** A row of the `duels` collection (types.ts:92-100). */
  datatype Duel = Duel(
    id: Id,
    challenger: Id,
    opponent: Id,
    stake: int,
    status: DuelStatus,
    challengerChoice: Option<Choice>,
    opponentChoice: Option<Choice>,
    winner: Option<Id>,
    created: int)

  /** Which of the two choice keys a player owns. */
  datatype Side = ChallengerSide | OpponentSide

  /** `isChallenger ? 'challenger_choice' : 'opponent_choice'`. */
  function SideOf(d: Duel, me: Id): Side
  {
    if d.challenger == me then ChallengerSide else OpponentSide
  }

  function OtherSide(s: Side): Side
  {
    if s == ChallengerSide then OpponentSide else ChallengerSide
  }

  function ChoiceOf(d: Duel, s: Side): Option<Choice>
  {
    if s == ChallengerSide then d.challengerChoice else d.opponentChoice
  }

  /** The other participant as the handler computes it:
      `isChallenger ? opponent : challenger`. */
  function Rival(d: Duel, me: Id): Id
  {
    if d.challenger == me then d.opponent else d.challenger
  }

  /** `!!duel.winner`: a winner is set (an empty relation reads as none). */
  predicate HasWinner(d: Duel)
  {
    d.winner.Some? && d.winner.value != ""
  }

  /** The partial update written to the duel row. It always carries the mover's
      own choice key and the status; `winner` is None when the key is absent and
      Some(None) when it is written as null (a draw). */
  datatype DuelPayload = DuelPayload(side: Side, choice: Choice, status: DuelStatus, winner: Option<Option<Id>>)

  /** The row after the store merges a partial update into it. */
  function ApplyPayload(d: Duel, p: DuelPayload): (r: Duel)
    ensures r.id == d.id && r.challenger == d.challenger && r.opponent == d.opponent && r.stake == d.stake
    ensures r.status == p.status
    ensures p.side == ChallengerSide ==> r.challengerChoice == Some(p.choice) && r.opponentChoice == d.opponentChoice
    ensures p.side != ChallengerSide ==> r.opponentChoice == Some(p.choice) && r.challengerChoice == d.challengerChoice
    ensures r.winner == (if p.winner.Some? then p.winner.value else d.winner)
  {
    var withChoice :=
      if p.side == ChallengerSide then d.(challengerChoice := Some(p.choice))
      else d.(opponentChoice := Some(p.choice));
    var withStatus := withChoice.(status := p.status);
    match p.winner
    case None => withStatus
    case Some(w) => withStatus.(winner := w)
  }

  /** What one choice makes the handler do: the duel write and, for a decided
      duel, the settlement issued before it. */
  datatype ChoicePlan = ChoicePlan(payload: DuelPayload, settlement: Option<Ledger.Transfer>)

  /** The pure decision of `handleMakeDuelChoice`. Points move only for a
      truthy winner id: a decided duel whose winner is an empty relation
      writes the winner but settles nothing. */
  function PlanChoice(d: Duel, me: Id, choice: Choice): (p: ChoicePlan)
    ensures p.payload.side == SideOf(d, me) && p.payload.choice == choice
    ensures ChoiceOf(d, OtherSide(SideOf(d, me))).None? ==>
      && p.payload.status == (if d.challenger == me then ChallengerChose else OpponentChose)
      && p.payload.winner.None?
      && p.settlement.None?
    ensures ChoiceOf(d, OtherSide(SideOf(d, me))).Some? ==>
      var theirs := ChoiceOf(d, OtherSide(SideOf(d, me))).value;
      && p.payload.status == Completed
      && p.payload.winner.Some?
      && (Beats(choice) == theirs ==> p.payload.winner == Some(Some(me)))
      && (Beats(theirs) == choice ==> p.payload.winner == Some(Some(Rival(d, me))))
      && (choice == theirs <==> p.payload.winner == Some(None))
      && (p.settlement.Some? <==> p.payload.winner.value.Some? && p.payload.winner.value.value != "")
    ensures p.settlement.Some? ==>
      && p.payload.winner == Some(Some(p.settlement.value.winner))
      && p.settlement.value.amount == d.stake
      && {p.settlement.value.winner, p.settlement.value.loser} == {me, Rival(d, me)}
  {
    var side := SideOf(d, me);
    var rival := Rival(d, me);
    match ChoiceOf(d, OtherSide(side))
    case None =>
      var waiting := if side == ChallengerSide then ChallengerChose else OpponentChose;
      ChoicePlan(DuelPayload(side, choice, waiting, None), None)
    case Some(theirs) =>
      var winner: Option<Id> :=
        match Resolve(choice, theirs)
        case MoverWins => Some(me)
        case OtherWins => Some(rival)
        case Draw => None;
      var settlement: Option<Ledger.Transfer> :=
        if winner.Some? && winner.value != "" then
          Some(Ledger.Transfer(winner.value, if winner.value == me then rival else me, d.stake))
        else None;
      ChoicePlan(DuelPayload(side, choice, Completed, Some(winner)), settlement)
  }

  /** The observable effect of one call of the handler. */
  datatype DuelStep = DuelStep(duel: Duel, balances: Ledger.Balances, questWin: bool)

  /** `handleMakeDuelChoice` against the store: the settlement writes (when the
      duel is decided) run before the duel write; a failed settlement is only
      logged, so the duel write is attempted either way; the WIN_DUEL quest
      progresses only after the duel write succeeded and the mover won. */
  function HandleChoice(d: Duel, me: Id, choice: Choice, b: Ledger.Balances,
                        okWinner: bool, okLoser: bool, okDuel: bool): (r: DuelStep)
    ensures !okDuel ==> r.duel == d
    ensures okDuel ==> r.duel.status in {ChallengerChose, OpponentChose, Completed}
    ensures okDuel ==> ChoiceOf(r.duel, SideOf(d, me)) == Some(choice)
    ensures r.balances == Ledger.SettleIfAny(b, PlanChoice(d, me, choice).settlement, okWinner, okLoser).balances
    ensures r.questWin <==> okDuel && r.duel.status == Completed && r.duel.winner == Some(me)
  {
    var plan := PlanChoice(d, me, choice);
    var settled := Ledger.SettleIfAny(b, plan.settlement, okWinner, okLoser);
    var stored := if okDuel then ApplyPayload(d, plan.payload) else d;
    var quest := okDuel && plan.payload.status == Completed && plan.payload.winner == Some(Some(me));
    DuelStep(stored, settled.balances, quest)
  }

  /** A choice writes only the mover's own choice key (plus status and, when it
      decides the duel, winner): ids, stake and the other player's choice stay. */
  lemma ChoiceWritesOnlyOwnKey(d: Duel, me: Id, choice: Choice)
    ensures var d' := ApplyPayload(d, PlanChoice(d, me, choice).payload);
      && d'.id == d.id && d'.challenger == d.challenger && d'.opponent == d.opponent
      && d'.stake == d.stake && d'.created == d.created
      && ChoiceOf(d', SideOf(d, me)) == Some(choice)
      && ChoiceOf(d', OtherSide(SideOf(d, me))) == ChoiceOf(d, OtherSide(SideOf(d, me)))
      && (ChoiceOf(d, OtherSide(SideOf(d, me))).None? ==> d'.winner == d.winner)
  {
  }

  /** The winner a finished duel should have, by the two picks alone. */
  function WinnerOf(d: Duel, challengerPick: Choice, opponentPick: Choice): Option<Id>
  {
    if Beats(challengerPick) == opponentPick then Some(d.challenger)
    else if Beats(opponentPick) == challengerPick then Some(d.opponent)
    else None
  }

  /** Whoever chooses first, two choices on an accepted duel complete it with the
      same winner, the one the picks determine, and the second call settles the
      same transfer. */
  lemma ResolutionIndependentOfOrder(d: Duel, a: Choice, b: Choice)
    requires d.challenger != d.opponent
    requires d.challengerChoice.None? && d.opponentChoice.None?
    ensures
      var c1 := ApplyPayload(d, PlanChoice(d, d.challenger, a).payload);
      var c2 := ApplyPayload(c1, PlanChoice(c1, d.opponent, b).payload);
      var o1 := ApplyPayload(d, PlanChoice(d, d.opponent, b).payload);
      var o2 := ApplyPayload(o1, PlanChoice(o1, d.challenger, a).payload);
      && c1.status == ChallengerChose && o1.status == OpponentChose
      && c2.status == Completed && o2.status == Completed
      && c2.winner == WinnerOf(d, a, b) && o2.winner == WinnerOf(d, a, b)
      && (d.challenger != "" && d.opponent != "" ==>
            && PlanChoice(c1, d.opponent, b).settlement.Some? == (a != b)
            && PlanChoice(o1, d.challenger, a).settlement.Some? == (a != b))
  {
    BeatsIsThreeCycle(a);
  }

  /** Worked example: stake 10, the challenger shows rock, the opponent scissors:
      the challenger wins, gains 10, and the opponent loses 10. */
  lemma RockBeatsScissorsExample(ch: Id, op: Id, b: Ledger.Balances)
    requires ch != op && ch != "" && op != "" && ch in b && op in b
    ensures
      var d := Duel("d1", ch, op, 10, Accepted, None, None, None, 0);
      var first := HandleChoice(d, ch, Rock, b, true, true, true);
      var second := HandleChoice(first.duel, op, Scissors, first.balances, true, true, true);
      && first.balances == b
      && second.duel.status == Completed && second.duel.winner == Some(ch)
      && second.balances[ch] == b[ch] + 10 && second.balances[op] == b[op] - 10
  {
  }

  /** A duel against an empty relation: the mover's scissors lose to the
      stored rock, so the winner is the empty id, and no points move. */
  lemma EmptyWinnerIsNotSettled(b: Ledger.Balances)
    ensures
      var d := Duel("d1", "me", "", 10, ChallengerChose, None, Some(Rock), None, 0);
      var r := HandleChoice(d, "me", Scissors, b, true, true, true);
      && PlanChoice(d, "me", Scissors).payload.winner == Some(Some(""))
      && PlanChoice(d, "me", Scissors).settlement.None?
      && r.balances == b
  {
  }

  /** The settlement precedes the duel write: when the balance writes land but
      the duel write fails, points have moved while the duel is still open. */
  lemma SettlementPrecedesDuelWrite(d: Duel, me: Id, choice: Choice, b: Ledger.Balances)
    requires d.challenger != d.opponent && me == d.opponent && d.challenger in b && me in b
    requires d.challenger != "" && me != ""
    requires d.status == ChallengerChose && d.challengerChoice == Some(Beats(choice))
    requires d.stake != 0
    ensures var r := HandleChoice(d, me, choice, b, true, true, false);
      && r.duel == d && r.duel.status != Completed
      && r.balances[me] == b[me] + d.stake
      && r.balances[d.challenger] == b[d.challenger] - d.stake
      && !r.questWin
  {
    BeatsIsThreeCycle(choice);
  }
}
