/** The meal-support agent's eligibility rule: before it answers about a
    flight's meal orders it checks, in this order, that the flight is a
    passenger flight (service type "J"), that it has not departed, and that
    it is not finalized (status "FF"); the first check that fails decides the
    reply. Today's date is a parameter. */
module MealSupport {
  import opened Wrappers
  import opened Text
  import opened Flights

  // ---------------------------------------------------------------------------
  // Dates written DD-MMM-YYYY

  datatype Date = Date(year: int, month: int, day: int)

  /** `a` is strictly earlier than `b`. */
  predicate Before(a: Date, b: Date) {
    a.year < b.year
    || (a.year == b.year && (a.month < b.month || (a.month == b.month && a.day < b.day)))
  }

  /** The English three-letter month abbreviations. */
  function MonthNumber(m: string): Option<int> {
    if m == "Jan" then Some(1) else if m == "Feb" then Some(2) else if m == "Mar" then Some(3)
    else if m == "Apr" then Some(4) else if m == "May" then Some(5) else if m == "Jun" then Some(6)
    else if m == "Jul" then Some(7) else if m == "Aug" then Some(8) else if m == "Sep" then Some(9)
    else if m == "Oct" then Some(10) else if m == "Nov" then Some(11) else if m == "Dec" then Some(12)
    else None
  }

  function MonthName(m: int): string
    requires 1 <= m <= 12
  {
    if m == 1 then "Jan" else if m == 2 then "Feb" else if m == 3 then "Mar"
    else if m == 4 then "Apr" else if m == 5 then "May" else if m == 6 then "Jun"
    else if m == 7 then "Jul" else if m == 8 then "Aug" else if m == 9 then "Sep"
    else if m == 10 then "Oct" else if m == 11 then "Nov" else "Dec"
  }

  predicate AllDigits(s: string) {
    forall i :: 0 <= i < |s| ==> IsDigit(s[i])
  }

  /** Reads "DD-MMM-YYYY": two digits of day (01 to 31), a month
      abbreviation and four digits of year, separated by dashes. Anything
      else is not a date. */
  function ParseDate(s: string): Option<Date> {
    if |s| != 11 || s[2] != '-' || s[6] != '-' || !AllDigits(s[..2]) || !AllDigits(s[7..]) then None
    else
      var day := DecimalValue(s[..2]);
      match MonthNumber(s[3..6])
      case None => None
      case Some(month) =>
        if 1 <= day <= 31 then Some(Date(DecimalValue(s[7..]), month, day)) else None
  }

  predicate ValidDate(d: Date) {
    0 <= d.year <= 9999 && 1 <= d.month <= 12 && 1 <= d.day <= 31
  }

  /** `n` in `width` decimal digits, with leading zeros. */
  function Digits(n: nat, width: nat): (r: string)
    ensures |r| == width && AllDigits(r)
  {
    if width == 0 then "" else Digits(n / 10, width - 1) + [DigitChar(n % 10)]
  }

  lemma {:induction false} DigitsValue(n: nat, width: nat)
    requires n < Power10(width)
    ensures DecimalValue(Digits(n, width)) == n
  {
    if width > 0 {
      var r := Digits(n, width);
      DigitsValue(n / 10, width - 1);
      assert r[..|r| - 1] == Digits(n / 10, width - 1);
    }
  }

  function Power10(width: nat): nat {
    if width == 0 then 1 else 10 * Power10(width - 1)
  }

  /** Writes a date as "DD-MMM-YYYY". */
  function FormatDate(d: Date): (s: string)
    requires ValidDate(d)
    ensures |s| == 11
  {
    Digits(d.day, 2) + "-" + MonthName(d.month) + "-" + Digits(d.year, 4)
  }

  lemma MonthRoundTrip(m: int)
    requires 1 <= m <= 12
    ensures MonthNumber(MonthName(m)) == Some(m)
  {
  }

  /** Reading back a written date gives the date again. */
  lemma DateRoundTrip(d: Date)
    requires ValidDate(d)
    ensures ParseDate(FormatDate(d)) == Some(d)
  {
    var s := FormatDate(d);
    var dd, mmm, yyyy := Digits(d.day, 2), MonthName(d.month), Digits(d.year, 4);
    assert s[..2] == dd && s[3..6] == mmm && s[7..] == yyyy;
    DigitsValue(d.day, 2);
    assert Power10(4) == 10000 by {
      assert Power10(2) == 100;
    }
    DigitsValue(d.year, 4);
    MonthRoundTrip(d.month);
  }

  // ---------------------------------------------------------------------------
  // The checks

  const ServiceTypeMessage := "We regret to inform you that meal services are only available for passenger flights (service type J). This flight appears to be a different service type and does not have meal ordering facilities."
  const DepartedMessage := "We apologize, but meal ordering is not available as this flight has already departed."
  const FinalizedMessage := "We regret to inform you that meal orders cannot be processed as this flight has been finalized."

  /** The flight's date is before today. A date that cannot be read does not
      count as past. */
  predicate Departed(f: Flight, today: Date) {
    match ParseDate(f.flightDate)
    case None => false
    case Some(d) => Before(d, today)
  }

  datatype Eligibility = Eligible | Ineligible(message: string)

  /** The three checks in order; the first that fails gives the reply. */
  function CheckMealEligibility(f: Flight, today: Date): Eligibility {
    if f.serviceType != "J" then Ineligible(ServiceTypeMessage)
    else if Departed(f, today) then Ineligible(DepartedMessage)
    else if f.flightStatus == "FF" then Ineligible(FinalizedMessage)
    else Eligible
  }

  /** A flight is eligible exactly when it passes all three checks. */
  lemma EligibleIff(f: Flight, today: Date)
    ensures CheckMealEligibility(f, today) == Eligible
        <==> f.serviceType == "J" && !Departed(f, today) && f.flightStatus != "FF"
  {
  }

  /** The three replies are distinct. */
  lemma MessagesDistinct()
    ensures ServiceTypeMessage != DepartedMessage && ServiceTypeMessage != FinalizedMessage
            && DepartedMessage != FinalizedMessage
  {
    assert |ServiceTypeMessage| == 196 && |DepartedMessage| == 85 && |FinalizedMessage| == 95;
  }

  /** Each reply is given exactly when its check is the first that fails. */
  lemma FirstFailingCheckDecides(f: Flight, today: Date)
    ensures CheckMealEligibility(f, today) == Ineligible(ServiceTypeMessage) <==> f.serviceType != "J"
    ensures CheckMealEligibility(f, today) == Ineligible(DepartedMessage)
        <==> f.serviceType == "J" && Departed(f, today)
    ensures CheckMealEligibility(f, today) == Ineligible(FinalizedMessage)
        <==> f.serviceType == "J" && !Departed(f, today) && f.flightStatus == "FF"
  {
    MessagesDistinct();
  }

  /** A flight that has departed stays departed on every later day. */
  lemma DepartedStaysDeparted(f: Flight, today: Date, later: Date)
    requires Departed(f, today) && !Before(later, today)
    ensures Departed(f, later)
  {
  }

  // ---------------------------------------------------------------------------
  // The seeded flights

  /** EK0500 has service type "P", not a passenger flight: never eligible. */
  lemma CargoFlightNeverEligible(today: Date)
    ensures CheckMealEligibility(Flight3, today) == Ineligible(ServiceTypeMessage)
  {
  }

  /** EK0203 of 20-Jan-2024 is finalized: ineligible on any day, as departed
      once its date is past. */
  lemma FinalizedFlightNeverEligible(today: Date)
    ensures CheckMealEligibility(Flight2, today)
         == if Before(Date(2024, 1, 20), today) then Ineligible(DepartedMessage) else Ineligible(FinalizedMessage)
  {
    SeedDates();
  }

  /** EK0202 of 21-Jan-2024 is eligible exactly until its date has passed. */
  lemma OpenFlightEligibleUntilDeparture(today: Date)
    ensures CheckMealEligibility(Flight1, today) == Eligible <==> !Before(Date(2024, 1, 21), today)
  {
    SeedDates();
  }

  /** The two seeded passenger flights' dates, read. */
  lemma SeedDates()
    ensures ParseDate(Flight1.flightDate) == Some(Date(2024, 1, 21))
    ensures ParseDate(Flight2.flightDate) == Some(Date(2024, 1, 20))
  {
    Flight1Date();
    Flight2Date();
  }

  lemma Flight1Date()
    ensures ParseDate(Flight1.flightDate) == Some(Date(2024, 1, 21))
  {
    assert DecimalValue("21") == 21 by {
      assert "21"[..1] == "2" && "2"[..0] == "";
    }
    ReadDate(Flight1.flightDate, "21", 2024, 21);
  }

  lemma Flight2Date()
    ensures ParseDate(Flight2.flightDate) == Some(Date(2024, 1, 20))
  {
    assert DecimalValue("20") == 20 by {
      assert "20"[..1] == "2" && "2"[..0] == "";
    }
    ReadDate(Flight2.flightDate, "20", 2024, 20);
  }

  /** A January date of 2024 is read from its day's two digits. */
  lemma ReadDate(s: string, dd: string, year: nat, day: nat)
    requires |dd| == 2 && AllDigits(dd) && s == dd + "-Jan-2024"
    requires year == 2024 && day == DecimalValue(dd) && 1 <= day <= 31
    ensures ParseDate(s) == Some(Date(year, 1, day))
  {
    var rest := "-Jan-2024";
    assert s[..2] == dd && s[2..] == rest;
    assert s[3..6] == rest[1..4] && s[7..] == rest[5..];
    assert rest[1..4] == "Jan" && rest[5..] == "2024";
    Year2024();
  }

  lemma Year2024()
    ensures AllDigits("2024") && DecimalValue("2024") == 2024
  {
    assert "2024"[..3] == "202" && "202"[..2] == "20" && "20"[..1] == "2" && "2"[..0] == "";
  }
}
