/** `getClientStatus` and `formatDate`: a client's status from its expiration
    date, and the display form of a stored date. */
module DateUtils {
  import opened Wrappers
  import opened Calendar
  import opened Digits

  /** A reading of the local clock: the current date and the milliseconds
      elapsed since its midnight. */
  datatype Instant = Instant(date: Date, millisOfDay: nat)

  predicate ValidInstant(now: Instant) {
    Valid(now.date) && now.millisOfDay < 86400000
  }

  /** A clock reading that names an existing date and time of day. */
  type Now = n: Instant | ValidInstant(n) witness Instant(Date(1970, 1, 1), 0)

  /** `today.setHours(0, 0, 0, 0)`. */
  function StartOfDay(now: Now): Now {
    Instant(now.date, 0)
  }

  /** A JavaScript number produced by `differenceInDays`: a whole number of
      days, or NaN when the expiration string is not a date. */
  datatype DayCount = Days(n: int) | NaN

  /** `c < k`; false for NaN. */
  predicate IsBelow(c: DayCount, k: int) {
    c.Days? && c.n < k
  }

  /** `c <= k`; false for NaN. */
  predicate IsAtMost(c: DayCount, k: int) {
    c.Days? && c.n <= k
  }

  /** `c === k`; false for NaN. */
  predicate Is(c: DayCount, k: int) {
    c.Days? && c.n == k
  }

  datatype Label = Expirado | Vencendo | Ativo

  function LabelText(l: Label): string {
    match l
    case Expirado => "Expirado"
    case Vencendo => "Vencendo"
    case Ativo => "Ativo"
  }

  /** The badge colour belonging to each label. */
  function ColorOf(l: Label): string {
    match l
    case Expirado => "bg-red-500 text-white"
    case Vencendo => "bg-yellow-500 text-white"
    case Ativo => "bg-green-500 text-white"
  }

  datatype ClientStatus = ClientStatus(text: Label, color: string, daysRemaining: DayCount)

  /** `differenceInDays(parseISO(expirationDate), today)` with `today` at
      midnight: whole calendar days from today to the expiration date. */
  function DaysRemaining(expirationDate: string, today: Now): DayCount {
    match ParseIso(expirationDate)
    case Some(expiry) => Days(DayNumber(expiry) - DayNumber(today.date))
    case None => NaN
  }

  /** `getClientStatus(expirationDate)` read at clock time `now`. */
  function GetClientStatus(expirationDate: string, now: Now): (r: ClientStatus)
    ensures ParseIso(expirationDate).Some? ==>
      r.daysRemaining == Days(DayNumber(ParseIso(expirationDate).value) - DayNumber(now.date))
    ensures ParseIso(expirationDate).None? ==> r.daysRemaining == NaN
    ensures r.text == Expirado <==> r.daysRemaining.Days? && r.daysRemaining.n < 0
    ensures r.text == Vencendo <==> r.daysRemaining.Days? && 0 <= r.daysRemaining.n <= 3
    ensures r.text == Ativo <==> r.daysRemaining.NaN? || r.daysRemaining.n > 3
    ensures r.color == ColorOf(r.text)
  {
    var today := StartOfDay(now);
    var daysRemaining := DaysRemaining(expirationDate, today);
    if IsBelow(daysRemaining, 0) then ClientStatus(Expirado, ColorOf(Expirado), daysRemaining)
    else if IsAtMost(daysRemaining, 3) then ClientStatus(Vencendo, ColorOf(Vencendo), daysRemaining)
    else ClientStatus(Ativo, ColorOf(Ativo), daysRemaining)
  }

  /** The time of day at which the status is read does not matter. */
  lemma StatusIgnoresTimeOfDay(expirationDate: string, now1: Now, now2: Now)
    requires now1.date == now2.date
    ensures GetClientStatus(expirationDate, now1) == GetClientStatus(expirationDate, now2)
  {
  }

  /** A client expiring `n` days after today, as the sample data sets up
      with `formatISO(addDays(today, n))`, reads back `n` days remaining. */
  lemma DaysAhead(now: Now, n: nat)
    requires AddDays(now.date, n).year < 10000
    ensures GetClientStatus(FormatIso(AddDays(now.date, n)), now).daysRemaining == Days(n)
  {
    IsoRoundTrip(AddDays(now.date, n));
  }

  /** A client that expired `n` days before today reads back `-n`. */
  lemma DaysBehind(expiry: Date, n: nat, now: Now)
    requires Valid(expiry) && expiry.year < 10000 && DayNumber(expiry) + n == DayNumber(now.date)
    ensures GetClientStatus(FormatIso(expiry), now).daysRemaining == Days(-(n as int))
  {
    IsoRoundTrip(expiry);
  }

  /** The year printed by the `yyyy` token of date-fns: the era year, so that
      astronomical year 0 (1 BC) prints as 1. */
  function EraYear(y: nat): nat {
    if y > 0 then y else 1 - y
  }

  /** `formatDate(dateString)`: `dd/MM/yyyy`, "N/A" for the empty string, and
      "Data inválida" when `format` throws on an Invalid Date. */
  function FormatDate(dateString: string): (r: string)
    ensures dateString == "" ==> r == "N/A"
    ensures dateString != "" && ParseIso(dateString).None? ==> r == "Data inválida"
    ensures ParseIso(dateString).Some? && ParseIso(dateString).value.year >= 1 ==>
      r == dateString[8..10] + "/" + dateString[5..7] + "/" + dateString[0..4]
    ensures ParseIso(dateString).Some? && ParseIso(dateString).value.year == 0 ==>
      r == dateString[8..10] + "/" + dateString[5..7] + "/0001"
  {
    if dateString == "" then "N/A"
    else match ParseIso(dateString)
      case None => "Data inválida"
      case Some(d) =>
        IsoCanonical(dateString);
        FormatIsoParts(d);
        assert Decimal(1, 4) == "0001";
        Decimal(d.day, 2) + "/" + Decimal(d.month, 2) + "/" + Decimal(EraYear(d.year), 4)
  }
}
