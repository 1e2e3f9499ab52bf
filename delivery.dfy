/**
  * Whether an order can arrive by a requested day (tools.py, the nested
  * `calculate_delivery_feasibility` of `shipping_time_estimator`).
  *
  * A target that contains "st", "nd", "rd" or "th" is read as a day of the month: its
  * digits give the day, the month is the current one, or the next one when that day has
  * already passed. Otherwise a target that is a day name is read as the next such
  * weekday, strictly after today. The order arrives `daysNeeded` days after the present
  * moment.
  */
module Delivery {

  import opened Wrappers
  import opened Ascii
  import opened Numerals
  import opened PyValues
  import opened Calendar

  const WeekdayNames: seq<string> :=
    ["monday", "tuesday", "wednesday", "thursday", "friday", "saturday", "sunday"]

  /** The largest value of a C `int` and of a C `long` on a 64-bit platform. */
  const IntMax := 0x7fff_ffff
  const LongMax := 0x7fff_ffff_ffff_ffff

  /**
    * The dictionary the helper returns: the verdict with both dates (rendered by
    * `strftime`, not modelled), or one of its two error dictionaries.
    */
  datatype Feasibility =
    | Verdict(canDeliver: bool, estimatedDelivery: Date, requestedDate: Date)
    | InvalidDate      // "Invalid date specified"
    | InvalidTarget    // "Invalid delivery target specified"

  /** The test that routes a target to the day-of-month branch. */
  predicate LooksOrdinal(t: string) {
    Contains(t, "st") || Contains(t, "nd") || Contains(t, "rd") || Contains(t, "th")
  }

  /** `names.index(t)`, or `None` when `t not in names`. */
  function IndexOf(names: seq<string>, t: string): (r: Option<nat>)
    ensures r.Some? ==> r.value < |names| && names[r.value] == t
    ensures r.Some? ==> forall j :: 0 <= j < r.value ==> names[j] != t
    ensures r.None? <==> t !in names
  {
    if names == [] then None
    else if names[0] == t then Some(0)
    else
      match IndexOf(names[1..], t)
      case Some(k) => Some(k + 1)
      case None => None
  }

  /** Days from weekday `current` to the next weekday `target`, never zero. */
  function DaysUntil(target: int, current: int): (d: int)
    requires 0 <= target < 7 && 0 <= current < 7
    ensures 1 <= d <= 7 && (current + d) % 7 == target
  {
    var d := target - current;
    if d <= 0 then d + 7 else d
  }

  /** The year and month of the requested day of the month. */
  function TargetMonth(today: Date, day: int): (ym: (int, int))
    requires 1 <= today.month <= 12
    ensures 1 <= ym.1 <= 12
    ensures day >= today.day ==> ym == (today.year, today.month)
    ensures day < today.day && today.month < 12 ==> ym == (today.year, today.month + 1)
    ensures day < today.day && today.month == 12 ==> ym == (today.year + 1, 1)
  {
    if day < today.day then
      (if today.month == 12 then (today.year + 1, 1) else (today.year, today.month + 1))
    else (today.year, today.month)
  }

  /** `today + timedelta(days=n)` past the year 9999. */
  function DateOverflow(): PyError {
    PyError(OverflowError, "date value out of range")
  }

  /** `today + timedelta(days=n)`, or the exception it raises. */
  function AddToToday(today: Today, n: nat): (r: Outcome<Date>)
    ensures r.Return? <==> AddDays(today.date, n).year <= MaxYear
    ensures r.Return? ==> r.value == AddDays(today.date, n) && InRange(r.value)
    ensures r.Raise? ==> r.error == DateOverflow()
  {
    var d := AddDays(today.date, n);
    if d.year <= MaxYear then Return(d) else Raise(DateOverflow())
  }

  /** The day-of-month branch; `ValueError` is turned into `InvalidDate`, other errors escape. */
  function OrdinalFeasibility(today: Today, daysNeeded: nat, t: string): Outcome<Feasibility> {
    match ParseNat(Keep(t, IsDigit))
    case None => Return(InvalidDate)
    case Some(day) =>
      var (y, m) := TargetMonth(today.date, day);
      if day > LongMax then Raise(PyError(OverflowError, "Python int too large to convert to C long"))
      else if day > IntMax then Raise(PyError(OverflowError, "signed integer is greater than maximum"))
      else if !InRange(Date(y, m, day)) then Return(InvalidDate)
      else
        var requested := Date(y, m, day);
        match AddToToday(today, daysNeeded)
        case Raise(e) => Raise(e)
        case Return(delivery) =>
          // the delivery moment keeps today's time of day; the requested one is midnight
          var canDeliver := Before(delivery, requested) || (delivery == requested && today.atMidnight);
          Return(Verdict(canDeliver, delivery, requested))
  }

  /** The day-name branch: both moments keep today's time of day. */
  function WeekdayFeasibility(today: Today, daysNeeded: nat, index: nat): Outcome<Feasibility>
    requires index < 7
  {
    var until := DaysUntil(index, today.weekday);
    match AddToToday(today, daysNeeded)
    case Raise(e) => Raise(e)
    case Return(delivery) =>
      match AddToToday(today, until)
      case Raise(e) => Raise(e)
      case Return(requested) => Return(Verdict(OnOrBefore(delivery, requested), delivery, requested))
  }

  function CalculateDeliveryFeasibility(today: Today, daysNeeded: nat, target: Value): Outcome<Feasibility> {
    match AsStr(target)
    case Raise(e) => Raise(e)
    case Return(s) =>
      var t := Lower(s);
      if LooksOrdinal(t) then OrdinalFeasibility(today, daysNeeded, t)
      else
        match IndexOf(WeekdayNames, t)
        case Some(index) => WeekdayFeasibility(today, daysNeeded, index)
        case None => Return(InvalidTarget)
  }

  /**
    * A day name: the requested date is the next such weekday after today, and the order
    * makes it exactly when it needs no more days than that.
    */
  lemma WeekdayVerdict(today: Today, daysNeeded: nat, index: nat)
    requires index < 7
    ensures var until := DaysUntil(index, today.weekday);
      match WeekdayFeasibility(today, daysNeeded, index)
      case Raise(e) =>
        e == DateOverflow() &&
        (AddDays(today.date, daysNeeded).year > MaxYear || AddDays(today.date, until).year > MaxYear)
      case Return(f) =>
        f.Verdict? &&
        f.estimatedDelivery == AddDays(today.date, daysNeeded) &&
        f.requestedDate == AddDays(today.date, until) &&
        Before(today.date, f.requestedDate) &&
        (f.canDeliver <==> daysNeeded <= until)
  {
    var until := DaysUntil(index, today.weekday);
    AddDaysOrder(today.date, daysNeeded, until);
  }

  /**
    * A day of the month: the requested date carries that day, in this month when it has
    * not passed yet and in the next otherwise, and the order makes it when it arrives on
    * an earlier date, or on that date only if the present moment is midnight.
    */
  lemma OrdinalVerdict(today: Today, daysNeeded: nat, t: string)
    ensures match OrdinalFeasibility(today, daysNeeded, t)
      case Return(Verdict(canDeliver, delivery, requested)) =>
        var day := DigitsValue(Keep(t, IsDigit));
        requested.day == day &&
        (day >= today.date.day ==> requested.year == today.date.year && requested.month == today.date.month) &&
        (day < today.date.day ==> requested.year * 12 + requested.month == today.date.year * 12 + today.date.month + 1) &&
        OnOrBefore(today.date, requested) &&
        InRange(requested) &&
        delivery == AddDays(today.date, daysNeeded) &&
        (canDeliver <==> Before(delivery, requested) || (delivery == requested && today.atMidnight))
      case Return(InvalidTarget) => false
      case _ => true
  {
  }

  /** The day-of-month branch reports an invalid date exactly when no real date is named. */
  lemma OrdinalInvalidDate(today: Today, daysNeeded: nat, t: string)
    ensures OrdinalFeasibility(today, daysNeeded, t) == Return(InvalidDate) <==>
      var digits := Keep(t, IsDigit);
      digits == [] ||
      (var day := DigitsValue(digits);
       var (y, m) := TargetMonth(today.date, day);
       day <= IntMax && !InRange(Date(y, m, day)))
  {
  }

  /** Ordering the day the order arrives: on the requested day itself it counts only at midnight. */
  lemma SameDayNeedsMidnight(today: Today, t: string)
    requires var digits := Keep(t, IsDigit); digits != [] && DigitsValue(digits) == today.date.day
    ensures OrdinalFeasibility(today, 0, t) == Return(Verdict(today.atMidnight, today.date, today.date))
  {
  }

  /** Past the last day of the year, the requested day of the month falls in January of the next year. */
  lemma DecemberRollsOver(today: Today, daysNeeded: nat, t: string)
    requires today.date.month == 12
    requires var digits := Keep(t, IsDigit); digits != [] && 1 <= DigitsValue(digits) < today.date.day
    requires today.date.year < MaxYear
    ensures match OrdinalFeasibility(today, daysNeeded, t)
      case Return(f) => f.Verdict? && f.requestedDate == Date(today.date.year + 1, 1, DigitsValue(Keep(t, IsDigit)))
      case Raise(e) => e == DateOverflow()
  {
  }

  lemma OrdinalNames()
    ensures LooksOrdinal("monday") && LooksOrdinal("thursday")
    ensures LooksOrdinal("saturday") && LooksOrdinal("sunday")
  {
    assert OccursAt("monday", "nd", 2);
    assert OccursAt("thursday", "th", 0);
    assert OccursAt("saturday", "rd", 4);
    assert OccursAt("sunday", "nd", 2);
    ContainsIff("monday", "nd");
    ContainsIff("thursday", "th");
    ContainsIff("saturday", "rd");
    ContainsIff("sunday", "nd");
  }

  /** No `a` in `s` is directly followed by `b`. */
  predicate NoPair(s: string, a: char, b: char) {
    forall i :: 0 <= i < |s| - 1 ==> !(s[i] == a && s[i + 1] == b)
  }

  lemma PairAbsent(s: string, a: char, b: char)
    requires NoPair(s, a, b)
    ensures !Contains(s, [a, b])
  {
    ContainsIff(s, [a, b]);
    forall i | 0 <= i ensures !OccursAt(s, [a, b], i) {
      if i + 2 <= |s| {
        assert s[i..i + 2] == [s[i], s[i + 1]];
      }
    }
  }

  lemma NotOrdinal(t: string)
    requires NoPair(t, 's', 't') && NoPair(t, 'n', 'd') && NoPair(t, 'r', 'd') && NoPair(t, 't', 'h')
    ensures !LooksOrdinal(t)
  {
    PairAbsent(t, 's', 't');
    PairAbsent(t, 'n', 'd');
    PairAbsent(t, 'r', 'd');
    PairAbsent(t, 't', 'h');
  }

  lemma {:induction false} KeepNone(s: string, keep: char -> bool)
    requires forall i :: 0 <= i < |s| ==> !keep(s[i])
    ensures Keep(s, keep) == []
  {
    if s != [] {
      KeepNone(s[1..], keep);
    }
  }

  /** Day names are lower-case letters only. */
  lemma DigitFree(t: string)
    requires forall i :: 0 <= i < |t| ==> 'a' <= t[i] <= 'z'
    ensures Keep(t, IsDigit) == []
  {
    KeepNone(t, IsDigit);
  }

  /**
    * Monday, Thursday, Saturday and Sunday contain "nd", "th" or "rd", so they are routed
    * to the day-of-month branch, which finds no digits in them and reports an invalid date.
    */
  lemma OrdinalLookalikes(today: Today, daysNeeded: nat, s: string)
    requires var t := Lower(s); t == "monday" || t == "thursday" || t == "saturday" || t == "sunday"
    ensures CalculateDeliveryFeasibility(today, daysNeeded, Str(s)) == Return(InvalidDate)
  {
    OrdinalNames();
    DigitFree(Lower(s));
  }

  /** Names that start with a different letter differ. */
  lemma {:induction false} IndexByFirstLetter(names: seq<string>, t: string, k: nat)
    requires k < |names| && names[k] == t && t != []
    requires forall j :: 0 <= j < k ==> names[j] != [] && names[j][0] != t[0]
    ensures IndexOf(names, t) == Some(k)
  {
    if k > 0 {
      assert names[0] != t;
      IndexByFirstLetter(names[1..], t, k - 1);
    }
  }

  /** The target is compared in lower case, so its capitalisation does not matter. */
  lemma TargetCaseInsensitive(today: Today, daysNeeded: nat, s: string)
    ensures CalculateDeliveryFeasibility(today, daysNeeded, Str(s)) ==
      CalculateDeliveryFeasibility(today, daysNeeded, Str(Lower(s)))
  {
    LowerIdempotent(s);
  }

  lemma NameRoute(today: Today, daysNeeded: nat, t: string, k: nat)
    requires Lower(t) == t && !LooksOrdinal(t) && IndexOf(WeekdayNames, t) == Some(k)
    ensures CalculateDeliveryFeasibility(today, daysNeeded, Str(t)) == WeekdayFeasibility(today, daysNeeded, k)
  {
  }

  lemma NonOrdinalName(t: string)
    requires t == "tuesday" || t == "wednesday" || t == "friday"
    ensures !LooksOrdinal(t)
  {
    if t == "tuesday" {
      NotOrdinal("tuesday");
    } else if t == "wednesday" {
      NotOrdinal("wednesday");
    } else {
      NotOrdinal("friday");
    }
  }

  lemma DayNameIndex(t: string)
    requires t == "tuesday" || t == "wednesday" || t == "friday"
    ensures IndexOf(WeekdayNames, t).Some?
  {
    if t == "tuesday" {
      IndexByFirstLetter(WeekdayNames, t, 1);
    } else if t == "wednesday" {
      IndexByFirstLetter(WeekdayNames, t, 2);
    } else {
      IndexByFirstLetter(WeekdayNames, t, 4);
    }
  }

  /** Only Tuesday, Wednesday and Friday reach the day-name branch. */
  lemma WeekdayReached(today: Today, daysNeeded: nat, t: string)
    requires t == "tuesday" || t == "wednesday" || t == "friday"
    ensures IndexOf(WeekdayNames, t).Some?
    ensures CalculateDeliveryFeasibility(today, daysNeeded, Str(t)) ==
      WeekdayFeasibility(today, daysNeeded, IndexOf(WeekdayNames, t).value)
  {
    LowerIdentity(t);
    NonOrdinalName(t);
    DayNameIndex(t);
    NameRoute(today, daysNeeded, t, IndexOf(WeekdayNames, t).value);
  }

  /** A target that names neither a day of the month nor a weekday is reported as such. */
  lemma UnknownTarget(today: Today, daysNeeded: nat, s: string)
    requires !LooksOrdinal(Lower(s)) && Lower(s) !in WeekdayNames
    ensures CalculateDeliveryFeasibility(today, daysNeeded, Str(s)) == Return(InvalidTarget)
  {
  }

  /** A target that is not a string fails on `.lower()`. */
  lemma NonStringTarget(today: Today, daysNeeded: nat, target: Value)
    requires !target.Str?
    ensures CalculateDeliveryFeasibility(today, daysNeeded, target) == Raise(NoAttribute(target, "lower"))
  {
  }
}
