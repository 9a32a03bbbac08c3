/**
 * The face and subtitle printed on a coin card. A card shows either a
 * calendar-month coin (month and year) or a day milestone (days); the card
 * reads whichever fields the coin has.
 */
module CoinCard {
  import opened Wrappers
  import opened Text
  import opened CoinMilestones

  /** The fields a card reads; absent fields are None. `month` is 1-based. */
  datatype CardCoin = CardCoin(month: Option<int>, year: Option<int>, days: Option<int>)

  function FromMilestone(m: Milestone): CardCoin {
    CardCoin(None, None, Some(m.days))
  }

  function FromMonthly(c: MonthlyCoin): CardCoin {
    CardCoin(Some(c.month), Some(c.year), None)
  }

  /** Month and year both present and non-zero (truthy numbers). */
  predicate IsMonthly(c: CardCoin) {
    c.month.Some? && c.month.value != 0 && c.year.Some? && c.year.value != 0
  }

  /** A monthly face is the locale's short month name, outside the model, so
      it is kept symbolic; every other face is text. */
  datatype CoinFace = ShortMonthName(year: int, month: int) | Label(text: string)

  /** The big text on the coin: the month for a monthly coin, the day count
      below a year, whole years followed by "Y" from a year on, "?" otherwise. */
  function DisplayText(c: CardCoin): (face: CoinFace)
    ensures face.ShortMonthName? <==> IsMonthly(c)
    ensures face == Label("?") <==> !IsMonthly(c) && c.days.None?
  {
    if IsMonthly(c) then ShortMonthName(c.year.value, c.month.value)
    else if c.days.Some? then
      if c.days.value < 365 then Label(IntToString(c.days.value))
      else Label(IntToString(c.days.value / 365) + "Y")
    else Label("?")
  }

  /** The line under the coin: the year for a monthly coin, "N day(s)" for a
      milestone, nothing otherwise. */
  function Subtitle(c: CardCoin): (subtitle: string)
    ensures subtitle == "" ==> !IsMonthly(c) && c.days.None?
  {
    if IsMonthly(c) then IntToString(c.year.value)
    else if c.days.Some? then IntToString(c.days.value) + " " + (if c.days.value == 1 then "day" else "days")
    else ""
  }

  /** Month and year win over days, for both texts. */
  lemma MonthlyTakesPrecedence(month: int, year: int, days: Option<int>)
    requires month != 0 && year != 0
    ensures DisplayText(CardCoin(Some(month), Some(year), days)) == ShortMonthName(year, month)
    ensures Subtitle(CardCoin(Some(month), Some(year), days)) == IntToString(year)
  {
  }

  /** A day count below a year is printed as the number itself: reading the
      label back gives the count. */
  lemma DayLabelReadsBack(days: nat)
    requires days < 365
    ensures var face := DisplayText(CardCoin(None, None, Some(days)));
      face.Label? && (forall i :: 0 <= i < |face.text| ==> IsDigit(face.text[i])) && DigitsValue(face.text) == days
  {
    NatToStringRoundTrip(days);
  }

  /** From a year on the label counts whole years: k followed by "Y" with
      365k <= days < 365(k+1). */
  lemma YearLabelCountsWholeYears(days: int)
    requires days >= 365
    ensures var face := DisplayText(CardCoin(None, None, Some(days)));
      exists k: nat :: (k >= 1 && 365 * k <= days < 365 * (k + 1) && face == Label(NatToString(k) + "Y"))
  {
    var k: nat := days / 365;
    assert 365 * k <= days < 365 * (k + 1);
    assert IntToString(days / 365) == NatToString(k);
    assert DisplayText(CardCoin(None, None, Some(days))) == Label(NatToString(k) + "Y");
  }

  /** The day subtitle is "1 day" for one day and ends in " days" otherwise. */
  lemma DaySubtitleNumber(days: int)
    ensures Subtitle(CardCoin(None, None, Some(1))) == "1 day"
    ensures days != 1 ==> Subtitle(CardCoin(None, None, Some(days))) == IntToString(days) + " days"
  {
    assert NatToString(1) == "1";
  }

  /** A card with neither month and year nor days shows "?" over an empty subtitle. */
  lemma UnknownCoin(c: CardCoin)
    requires !IsMonthly(c) && c.days.None?
    ensures DisplayText(c) == Label("?") && Subtitle(c) == ""
  {
  }

  /** Every catalog milestone card reads its days; every monthly coin with a
      1-based month and a non-zero year reads its month and year. */
  lemma CatalogCards(m: Milestone, c: MonthlyCoin)
    requires c.month >= 1 && c.year != 0
    ensures !IsMonthly(FromMilestone(m)) && DisplayText(FromMilestone(m)).Label?
    ensures DisplayText(FromMonthly(c)) == ShortMonthName(c.year, c.month)
    ensures Subtitle(FromMonthly(c)) == IntToString(c.year)
  {
  }

  /** Only an earned coin gets the click handler. */
  function ClickHandler<H>(earned: bool, onClick: H): (handler: Option<H>)
    ensures handler.Some? <==> earned
    ensures handler.Some? ==> handler.value == onClick
  {
    if earned then Some(onClick) else None
  }
}
