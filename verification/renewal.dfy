/** Quick renewal, offered both on the dashboard's upcoming table and in the
    client list: the two screens carry the same handler. */
module Renewal {
  import opened Wrappers
  import opened Types
  import opened Calendar
  import opened DateUtils

  /** `formatISO` throws "Invalid time value" on an Invalid Date. */
  datatype RenewError = InvalidTimeValue

  /** The renewal term: a fixed 30 days, whatever the plan. */
  const RenewalDays: nat := 30

  /** `handleQuickRenew`: 30 days from today when already expired, otherwise
      from the current expiration date; the reminder flag is cleared. */
  function QuickRenew(client: Client, now: Now): (r: Result<Client, RenewError>)
    ensures r.Err? <==> ParseIso(client.expirationDate).None?
    ensures r.Ok? ==> r.value == client.(expirationDate := r.value.expirationDate, hasReminder := Some(false))
    ensures r.Ok? ==>
      var exp := ParseIso(client.expirationDate).value;
      var renewed := AddDays(if Before(exp, now.date) then now.date else exp, RenewalDays);
      && r.value.expirationDate == FormatIso(renewed)
      && DayNumber(renewed) == Max(DayNumber(exp), DayNumber(now.date)) + 30
  {
    var today := StartOfDay(now).date;
    match ParseIso(client.expirationDate)
    case None => Err(InvalidTimeValue)
    case Some(currentExpiration) =>
      DayNumberOrder(currentExpiration, today);
      var baseDate := if Before(currentExpiration, today) then today else currentExpiration;
      Ok(client.(expirationDate := FormatIso(AddDays(baseDate, RenewalDays)), hasReminder := Some(false)))
  }

  function Max(a: int, b: int): int {
    if a < b then b else a
  }

  /** Thirty days later is at most one year later. */
  lemma AddMonthYear(d: Date)
    requires Valid(d)
    ensures AddDays(d, RenewalDays).year <= d.year + 1
  {
    var r := AddDays(d, RenewalDays);
    var later := Date(d.year + 2, 1, 1);
    DayNumberBounds(d);
    assert DaysBeforeYear(d.year + 2) == DaysBeforeYear(d.year + 1) + DaysInYear(d.year + 1);
    DayNumberOrder(r, later);
  }

  /** The stored result reads back as a date `max(expiration, today) + 30`
      days away, so never earlier than 30 days from today, as long as the years
      stay within four digits. */
  lemma RenewedDateReadsBack(client: Client, now: Now)
    requires ParseIso(client.expirationDate).Some?
    requires ParseIso(client.expirationDate).value.year < 9999 && now.date.year < 9999
    ensures QuickRenew(client, now).Ok?
    ensures var renewed := ParseIso(QuickRenew(client, now).value.expirationDate);
      && renewed.Some?
      && DayNumber(renewed.value)
         == Max(DayNumber(ParseIso(client.expirationDate).value), DayNumber(now.date)) + 30
      && DayNumber(renewed.value) >= DayNumber(now.date) + 30
  {
    var exp := ParseIso(client.expirationDate).value;
    var anchor := if Before(exp, now.date) then now.date else exp;
    AddMonthYear(anchor);
    IsoRoundTrip(AddDays(anchor, RenewalDays));
  }

  /** A renewed client shows as "Ativo" with at least 30 days left. */
  lemma RenewedClientIsActive(client: Client, now: Now)
    requires ParseIso(client.expirationDate).Some?
    requires ParseIso(client.expirationDate).value.year < 9999 && now.date.year < 9999
    ensures QuickRenew(client, now).Ok?
    ensures var status := GetClientStatus(QuickRenew(client, now).value.expirationDate, now);
      status.text == Ativo && status.daysRemaining.Days? && status.daysRemaining.n >= 30
  {
    RenewedDateReadsBack(client, now);
  }
}
