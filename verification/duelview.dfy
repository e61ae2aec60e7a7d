/** The open duel as the player sees it (components/DuelView.tsx): whose
    choice is whose (lines 20-24), the border of the two player cards (lines
    26-29), the result line (lines 31-40) and the panel shown under the cards
    (lines 42-111). */
module DuelView {
  import opened Common
  import opened Duel
  import Ledger

  /** `myChoice`: the challenger's choice for the challenger, the opponent's
      for anyone else. */
  function MyChoice(d: Duel, me: Id): (c: Option<Choice>)
    ensures c == ChoiceOf(d, SideOf(d, me))
    ensures d.challenger == me ==> c == d.challengerChoice
    ensures d.challenger != me ==> c == d.opponentChoice
  {
    if d.challenger == me then d.challengerChoice else d.opponentChoice
  }

  /** `opponentChoice`: the other of the two. */
  function TheirChoice(d: Duel, me: Id): (c: Option<Choice>)
    ensures c == ChoiceOf(d, OtherSide(SideOf(d, me)))
    ensures d.challenger == me ==> c == d.opponentChoice
    ensures d.challenger != me ==> c == d.challengerChoice
  {
    if d.challenger == me then d.opponentChoice else d.challengerChoice
  }

  /** The border of a player card. */
  datatype Border = Transparent | Green | Red

  /** `getPlayerCardClass(isWinner)`. */
  function CardBorder(d: Duel, isWinner: bool): (b: Border)
    ensures b != Transparent <==> d.status == Completed && HasWinner(d)
    ensures b == Green <==> d.status == Completed && HasWinner(d) && isWinner
  {
    if d.status != Completed || !HasWinner(d) then Transparent
    else if isWinner then Green else Red
  }

  /** The two cards of a finished duel with a winner: the winner's card is
      green and the other red; in every other case neither is highlighted. */
  lemma CardsHighlightTheWinner(d: Duel, me: Id, them: Id)
    requires me != them
    ensures var mine := CardBorder(d, d.winner == Some(me));
      var theirs := CardBorder(d, d.winner == Some(them));
      && (d.status == Completed && HasWinner(d) && d.winner.value in {me, them} ==>
            (mine == Green <==> theirs == Red) && (mine == Green || theirs == Green))
      && (!(d.status == Completed && HasWinner(d)) ==> mine == Transparent && theirs == Transparent)
  {
  }

  /** `resultText`. */
  function ResultText(d: Duel, me: Id): (t: string)
    ensures t != "" <==> d.status in {Completed, Declined, Cancelled}
    ensures d.status == Declined ==> t == "Дуэль отклонена"
    ensures d.status == Cancelled ==> t == "Дуэль отменена"
    ensures d.status == Completed ==>
      t == (if !HasWinner(d) then "Ничья!" else if d.winner == Some(me) then "Вы победили!" else "Вы проиграли")
  {
    if d.status != Completed then
      if d.status == Declined then "Дуэль отклонена"
      else if d.status == Cancelled then "Дуэль отменена"
      else ""
    else if !HasWinner(d) then "Ничья!"
    else if d.winner == Some(me) then "Вы победили!"
    else "Вы проиграли"
  }

  /** The panel under the cards: still loading the opponent's profile,
      waiting for the challenge to be accepted (with or without the cancel
      button), the result of a finished duel, the three choice buttons, or the
      note that the player's choice is made. */
  datatype Panel = Loading | Waiting(cancelButton: bool) | Outcome(text: string) | ChoiceButtons | ChoiceMade

  /** The view's branches in order; `opponentKnown` says whether the other
      participant was found among the loaded users. */
  function Content(d: Duel, me: Id, opponentKnown: bool): (p: Panel)
    ensures !opponentKnown <==> p == Loading
    ensures p.Waiting? <==> opponentKnown && d.status == Pending
    ensures p.Waiting? ==> (p.cancelButton <==> d.challenger == me)
    ensures p.Outcome? <==> opponentKnown && d.status in {Completed, Declined, Cancelled}
    ensures p.Outcome? ==> p.text == ResultText(d, me)
    ensures p == ChoiceButtons <==>
      opponentKnown && d.status !in {Pending, Completed, Declined, Cancelled} && MyChoice(d, me).None?
  {
    if !opponentKnown then Loading
    else if d.status == Pending then Waiting(d.challenger == me)
    else if d.status in {Completed, Declined, Cancelled} then Outcome(ResultText(d, me))
    else if MyChoice(d, me).None? then ChoiceButtons
    else ChoiceMade
  }

  /** Only the challenger can cancel, and only while the duel is pending. */
  lemma CancelOnlyForPendingChallenger(d: Duel, me: Id, opponentKnown: bool)
    ensures Content(d, me, opponentKnown) == Waiting(true) <==>
      opponentKnown && d.status == Pending && d.challenger == me
  {
  }

  /** An expired duel is not among the finished states the view tests for: a
      player who has not chosen is offered the choice buttons. */
  lemma ExpiredDuelOffersChoices(d: Duel, me: Id)
    requires d.status == Expired && MyChoice(d, me).None?
    ensures Content(d, me, true) == ChoiceButtons
  {
  }

  /** Once the player's choice is stored, the choice buttons are gone: the
      panel shows the choice made or, when the choice decided the duel, its
      result. */
  lemma StoredChoiceHidesButtons(d: Duel, me: Id, choice: Choice, b: Ledger.Balances, okWinner: bool, okLoser: bool)
    ensures var after := HandleChoice(d, me, choice, b, okWinner, okLoser, true).duel;
      && Content(after, me, true) in {ChoiceMade, Outcome(ResultText(after, me))}
      && Content(after, me, true) != ChoiceButtons
  {
  }

  /** The second choice shows each side the result the picks decide: the
      mover who beats the other pick reads a win, the other player a loss. */
  lemma DecisiveChoiceShowsResult(d: Duel, me: Id, choice: Choice, b: Ledger.Balances, okWinner: bool, okLoser: bool)
    requires me != "" && Rival(d, me) != "" && Rival(d, me) != me
    requires ChoiceOf(d, OtherSide(SideOf(d, me))) == Some(Beats(choice))
    ensures var after := HandleChoice(d, me, choice, b, okWinner, okLoser, true).duel;
      && ResultText(after, me) == "Вы победили!"
      && ResultText(after, Rival(d, me)) == "Вы проиграли"
  {
  }
}
