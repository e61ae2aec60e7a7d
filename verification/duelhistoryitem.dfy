/** One finished duel in the history list (components/DuelHistoryItem.tsx):
    which participant is shown as the opponent (lines 10-11) and the result
    line with its colour (lines 13-29). */
module DuelHistoryItem {
  import opened Common
  import opened Duel
  import DuelView

  /** The expanded relations of the row, each missing when not expanded. */
  datatype Expanded = Expanded(challenger: Option<User>, opponent: Option<User>)

  /** The expansions belong to the row: each expanded user is the one the
      relation points to. */
  predicate Faithful(d: Duel, ex: Expanded)
  {
    && (ex.challenger.Some? ==> ex.challenger.value.id == d.challenger)
    && (ex.opponent.Some? ==> ex.opponent.value.id == d.opponent)
  }

  /** `opponent`: the expanded opponent for the challenger, the expanded
      challenger for anyone else; None makes the item fall back to a line
      about an unknown player. */
  function ShownOpponent(d: Duel, me: Id, ex: Expanded): (u: Option<User>)
    ensures d.challenger == me ==> u == ex.opponent
    ensures d.challenger != me ==> u == ex.challenger
  {
    if d.challenger == me then ex.opponent else ex.challenger
  }

  /** The opponent shown is the participant the move handler plays against. */
  lemma ShownOpponentIsTheRival(d: Duel, me: Id, ex: Expanded)
    requires Faithful(d, ex)
    ensures ShownOpponent(d, me, ex).Some? ==> ShownOpponent(d, me, ex).value.id == Rival(d, me)
  {
  }

  /** The colour of the result line. */
  datatype Tone = Gray | Amber | Green | Red | DarkGray

  datatype HistoryResult = HistoryResult(text: string, tone: Tone)

  /** A string of decimal digits only. */
  predicate AllDigits(s: string)
  {
    forall i :: 0 <= i < |s| ==> '0' <= s[i] <= '9'
  }

  /** A natural number in decimal, without leading zeros. */
  function Digits(n: nat): (s: string)
    ensures |s| >= 1 && AllDigits(s)
    ensures s[0] == '0' <==> n == 0
    decreases n
  {
    var last := [('0' as int + n % 10) as char];
    if n < 10 then last else Digits(n / 10) + last
  }

  /** The number a string of decimal digits denotes. */
  function DigitsValue(s: string): (n: nat)
    requires AllDigits(s)
    ensures |s| == 1 ==> n == s[0] as int - '0' as int
    decreases |s|
  {
    if |s| == 0 then 0
    else
      assert AllDigits(s[..|s| - 1]);
      DigitsValue(s[..|s| - 1]) * 10 + (s[|s| - 1] as int - '0' as int)
  }

  /** Reading the digits back gives the number written. */
  lemma {:induction false} DigitsRoundTrip(n: nat)
    ensures DigitsValue(Digits(n)) == n
    decreases n
  {
    if n >= 10 {
      DigitsRoundTrip(n / 10);
      var s := Digits(n);
      assert s[..|s| - 1] == Digits(n / 10);
    }
  }

  /** A number as a template literal writes it. */
  function Decimal(n: int): (s: string)
    ensures |s| >= 1
    ensures (s[0] == '-') <==> n < 0
    ensures n < 0 ==> |s| >= 2 && AllDigits(s[1..]) && s[1] != '0'
    ensures n >= 0 ==> AllDigits(s)
  {
    if n < 0 then "-" + Digits(-n) else Digits(n)
  }

  /** Reading a written number back: an optional minus sign and digits. */
  function DecimalValue(s: string): (n: int)
    requires |s| >= 1
    requires if s[0] == '-' then AllDigits(s[1..]) else AllDigits(s)
    ensures s[0] == '-' ==> n <= 0
    ensures s[0] != '-' ==> n >= 0
  {
    if s[0] == '-' then -(DigitsValue(s[1..]) as int) else DigitsValue(s)
  }

  /** Reading the text back gives the stake written, sign included, so two
      different stakes are never written alike. */
  lemma DecimalRoundTrip(n: int, m: int)
    ensures DecimalValue(Decimal(n)) == n
    ensures Decimal(n) == Decimal(m) ==> n == m
  {
    DigitsRoundTrip(if n < 0 then -n else n);
    DigitsRoundTrip(if m < 0 then -m else m);
    if n < 0 {
      assert Decimal(n)[1..] == Digits(-n);
    }
    if m < 0 {
      assert Decimal(m)[1..] == Digits(-m);
    }
  }

  /** `getResult`. */
  function GetResult(d: Duel, me: Id): (r: HistoryResult)
    ensures d.status == Declined ==> r == HistoryResult("Отклонена", Gray)
    ensures d.status == Cancelled ==> r == HistoryResult("Отменена", Gray)
    ensures d.status == Completed && !HasWinner(d) ==> r == HistoryResult("Ничья", Amber)
    ensures d.status == Completed && HasWinner(d) && d.winner == Some(me) ==>
      r == HistoryResult("Победа (+" + Decimal(d.stake) + ")", Green)
    ensures d.status == Completed && HasWinner(d) && d.winner != Some(me) ==>
      r == HistoryResult("Поражение (-" + Decimal(d.stake) + ")", Red)
    ensures d.status !in {Declined, Cancelled, Completed} <==> r == HistoryResult("Неизвестно", DarkGray)
  {
    match d.status
    case Declined => HistoryResult("Отклонена", Gray)
    case Cancelled => HistoryResult("Отменена", Gray)
    case Completed =>
      if !HasWinner(d) then HistoryResult("Ничья", Amber)
      else if d.winner == Some(me) then HistoryResult("Победа (+" + Decimal(d.stake) + ")", Green)
      else HistoryResult("Поражение (-" + Decimal(d.stake) + ")", Red)
    case _ => HistoryResult("Неизвестно", DarkGray)
  }

  /** The history line and the open duel's result line tell the same story:
      a win in one is a win in the other, likewise a loss and a draw, and the
      states that have no result line in the open view read as unknown here. */
  lemma HistoryAgreesWithOpenView(d: Duel, me: Id)
    ensures GetResult(d, me).tone == Green <==> DuelView.ResultText(d, me) == "Вы победили!"
    ensures GetResult(d, me).tone == Red <==> DuelView.ResultText(d, me) == "Вы проиграли"
    ensures GetResult(d, me).tone == Amber <==> DuelView.ResultText(d, me) == "Ничья!"
    ensures GetResult(d, me).tone == DarkGray <==> DuelView.ResultText(d, me) == ""
  {
  }

  /** An expired duel has no result of its own: it reads as unknown. */
  lemma ExpiredReadsUnknown(d: Duel, me: Id)
    requires d.status == Expired
    ensures GetResult(d, me).text == "Неизвестно"
  {
  }
}
