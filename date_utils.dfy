/** `formatDistanceToNow` of `src/utils/dateUtils.js`: the French "time ago"
    text. The clock reading `Date.now()` and the numeric timestamp are both
    parameters, in milliseconds. */
module DateUtils {
  import opened JsValues

  /** `Math.floor(a / b)` for a positive divisor: Dafny's `/` already rounds
      down when the divisor is positive, negative dividends included. */
  function FloorDiv(a: int, b: int): (q: int)
    requires b > 0
    ensures q * b <= a < q * b + b
  {
    a / b
  }

  /** The text for a count of one unit: the singular word or `<n> <plural>`. */
  function CountText(n: nat, singular: string, plural: string): string
  {
    if n == 1 then singular else DecimalString(n) + " " + plural
  }

  function WithSuffix(text: string, addSuffix: bool): string
  {
    if addSuffix then "il y a " + text else text
  }

  /** `formatDistanceToNow(timestamp, { addSuffix })` read at clock `now`:
      a chain of floor divisions and early returns, as the source writes it. */
  function FormatDistanceToNow(now: int, timestamp: int, addSuffix: bool): (r: string)
    ensures addSuffix ==> |r| > 7 && r[..7] == "il y a "
    ensures !addSuffix ==> |r| > 0 && (r[0] == 'q' || IsDigit(r[0]))
  {
    var seconds := FloorDiv(now - timestamp, 1000);
    if seconds < 60 then
      (if addSuffix then "il y a quelques secondes" else "quelques secondes")
    else
      var minutes := FloorDiv(seconds, 60);
      if minutes < 60 then
        var text := if minutes == 1 then "1 minute" else DecimalString(minutes) + " minutes";
        if addSuffix then "il y a " + text else text
      else
        var hours := FloorDiv(minutes, 60);
        if hours < 24 then
          var text := if hours == 1 then "1 heure" else DecimalString(hours) + " heures";
          if addSuffix then "il y a " + text else text
        else
          var days := FloorDiv(hours, 24);
          if days < 30 then
            var text := if days == 1 then "1 jour" else DecimalString(days) + " jours";
            if addSuffix then "il y a " + text else text
          else
            var months := FloorDiv(days, 30);
            if months < 12 then
              var text := if months == 1 then "1 mois" else DecimalString(months) + " mois";
              if addSuffix then "il y a " + text else text
            else
              var years := FloorDiv(months, 12);
              var text := if years == 1 then "1 an" else DecimalString(years) + " ans";
              if addSuffix then "il y a " + text else text
  }

  /** The units of the reference description, each with its length in
      seconds (a month is 30 days, a year 12 such months). */
  datatype Unit = Minute | Hour | Day | Month | Year

  function UnitSeconds(u: Unit): nat
  {
    match u
    case Minute => 60
    case Hour => 3600
    case Day => 86400
    case Month => 2592000
    case Year => 31104000
  }

  function UnitWords(u: Unit): (string, string)
  {
    match u
    case Minute => ("1 minute", "minutes")
    case Hour => ("1 heure", "heures")
    case Day => ("1 jour", "jours")
    case Month => ("1 mois", "mois")
    case Year => ("1 an", "ans")
  }

  /** The unit an elapsed time of at least a minute is shown in, chosen by
      comparing the elapsed seconds against whole-unit thresholds. */
  function UnitFor(seconds: int): (u: Unit)
    requires seconds >= 60
    ensures UnitSeconds(u) <= seconds
    ensures u != Year ==> seconds < match u
      case Minute => 3600 case Hour => 86400 case Day => 2592000 case Month => 31104000 case Year => 0
  {
    if seconds < 3600 then Minute
    else if seconds < 86400 then Hour
    else if seconds < 2592000 then Day
    else if seconds < 31104000 then Month
    else Year
  }

  /** Reference description: elapsed seconds below a minute read "quelques
      secondes"; otherwise the count of whole units in the unit `UnitFor` picks. */
  function Reference(now: int, timestamp: int, addSuffix: bool): string
  {
    var seconds := FloorDiv(now - timestamp, 1000);
    if seconds < 60 then WithSuffix("quelques secondes", addSuffix)
    else
      var u := UnitFor(seconds);
      var (one, many) := UnitWords(u);
      WithSuffix(CountText(seconds / UnitSeconds(u), one, many), addSuffix)
  }

  lemma {:induction false} MulMono(x: int, y: int, k: nat)
    requires x <= y
    ensures x * k <= y * k
  {
    if k > 0 {
      MulMono(x, y, k - 1);
      assert x * k == x * (k - 1) + x && y * k == y * (k - 1) + y;
    }
  }

  /** A quotient is the one integer whose multiples bracket the dividend. */
  lemma DivUnique(a: int, d: int, q: int)
    requires d > 0 && q * d <= a < q * d + d
    ensures a / d == q
  {
    var q' := a / d;
    assert q' * d <= a < q' * d + d;
    assert (q' + 1) * d == q' * d + d;
    assert (q + 1) * d == q * d + d;
    if q' < q {
      MulMono(q' + 1, q, d);
    } else if q < q' {
      MulMono(q + 1, q', d);
    }
  }

  /** Dividing down twice is dividing once by the product. */
  lemma NestedFloorDiv(a: int, b: int, c: int)
    requires b > 0 && c > 0
    ensures a / b / c == a / (b * c)
  {
    var q := a / b;
    var r := q / c;
    assert q * b <= a < q * b + b;
    assert r * c <= q < r * c + c;
    MulMono(r * c, q, b);
    assert r * c * b == r * (b * c);
    MulMono(q + 1, (r + 1) * c, b);
    assert (q + 1) * b == q * b + b;
    assert (r + 1) * c * b == r * (b * c) + b * c;
    DivUnique(a, b * c, r);
  }

  /** The successive quotients of the source against the direct ones. */
  lemma Quotients(s: int)
    ensures s / 60 / 60 == s / 3600
    ensures s / 60 / 60 / 24 == s / 86400
    ensures s / 60 / 60 / 24 / 30 == s / 2592000
    ensures s / 60 / 60 / 24 / 30 / 12 == s / 31104000
    ensures s / 60 < 60 <==> s < 3600
    ensures s / 60 / 60 < 24 <==> s < 86400
    ensures s / 60 / 60 / 24 < 30 <==> s < 2592000
    ensures s / 60 / 60 / 24 / 30 < 12 <==> s < 31104000
  {
    NestedFloorDiv(s, 60, 60);
    NestedFloorDiv(s, 3600, 24);
    NestedFloorDiv(s, 86400, 30);
    NestedFloorDiv(s, 2592000, 12);
  }

  // One lemma per unit keeps each proof small.

  lemma MinutesAgree(now: int, timestamp: int, addSuffix: bool)
    requires 60 <= (now - timestamp) / 1000 < 3600
    ensures FormatDistanceToNow(now, timestamp, addSuffix) == Reference(now, timestamp, addSuffix)
  {
    var s := (now - timestamp) / 1000;
    Quotients(s);
    var minutes := FloorDiv(s, 60);
    assert UnitFor(s) == Minute;
    assert Reference(now, timestamp, addSuffix) == WithSuffix(CountText(minutes, "1 minute", "minutes"), addSuffix);
  }

  lemma HoursAgree(now: int, timestamp: int, addSuffix: bool)
    requires 3600 <= (now - timestamp) / 1000 < 86400
    ensures FormatDistanceToNow(now, timestamp, addSuffix) == Reference(now, timestamp, addSuffix)
  {
    var s := (now - timestamp) / 1000;
    Quotients(s);
    var minutes := FloorDiv(s, 60);
    var hours := FloorDiv(minutes, 60);
    assert UnitFor(s) == Hour;
    assert Reference(now, timestamp, addSuffix) == WithSuffix(CountText(hours, "1 heure", "heures"), addSuffix);
  }

  lemma DaysAgree(now: int, timestamp: int, addSuffix: bool)
    requires 86400 <= (now - timestamp) / 1000 < 2592000
    ensures FormatDistanceToNow(now, timestamp, addSuffix) == Reference(now, timestamp, addSuffix)
  {
    var s := (now - timestamp) / 1000;
    Quotients(s);
    var minutes := FloorDiv(s, 60);
    var hours := FloorDiv(minutes, 60);
    var days := FloorDiv(hours, 24);
    assert UnitFor(s) == Day;
    assert Reference(now, timestamp, addSuffix) == WithSuffix(CountText(days, "1 jour", "jours"), addSuffix);
  }

  lemma MonthsAgree(now: int, timestamp: int, addSuffix: bool)
    requires 2592000 <= (now - timestamp) / 1000 < 31104000
    ensures FormatDistanceToNow(now, timestamp, addSuffix) == Reference(now, timestamp, addSuffix)
  {
    var s := (now - timestamp) / 1000;
    Quotients(s);
    var minutes := FloorDiv(s, 60);
    var hours := FloorDiv(minutes, 60);
    var days := FloorDiv(hours, 24);
    var months := FloorDiv(days, 30);
    assert UnitFor(s) == Month;
    assert Reference(now, timestamp, addSuffix) == WithSuffix(CountText(months, "1 mois", "mois"), addSuffix);
  }

  lemma YearsAgree(now: int, timestamp: int, addSuffix: bool)
    requires 31104000 <= (now - timestamp) / 1000
    ensures FormatDistanceToNow(now, timestamp, addSuffix) == Reference(now, timestamp, addSuffix)
  {
    var s := (now - timestamp) / 1000;
    Quotients(s);
    var minutes := FloorDiv(s, 60);
    var hours := FloorDiv(minutes, 60);
    var days := FloorDiv(hours, 24);
    var months := FloorDiv(days, 30);
    var years := FloorDiv(months, 12);
    assert UnitFor(s) == Year;
    assert Reference(now, timestamp, addSuffix) == WithSuffix(CountText(years, "1 an", "ans"), addSuffix);
  }

  /** The chain of divisions in the source computes the reference count and
      unit, for every clock reading and timestamp. */
  lemma FormatMatchesReference(now: int, timestamp: int, addSuffix: bool)
    ensures FormatDistanceToNow(now, timestamp, addSuffix) == Reference(now, timestamp, addSuffix)
  {
    var s := (now - timestamp) / 1000;
    if s < 60 {
    } else if s < 3600 {
      MinutesAgree(now, timestamp, addSuffix);
    } else if s < 86400 {
      HoursAgree(now, timestamp, addSuffix);
    } else if s < 2592000 {
      DaysAgree(now, timestamp, addSuffix);
    } else if s < 31104000 {
      MonthsAgree(now, timestamp, addSuffix);
    } else {
      YearsAgree(now, timestamp, addSuffix);
    }
  }

  /** Under a minute, future timestamps included, the text is fixed. */
  lemma UnderAMinute(now: int, timestamp: int, addSuffix: bool)
    requires (now - timestamp) / 1000 < 60
    ensures FormatDistanceToNow(now, timestamp, addSuffix) ==
      if addSuffix then "il y a quelques secondes" else "quelques secondes"
  {
  }

  /** With `addSuffix` the text is exactly "il y a " followed by the text
      without it. */
  lemma SuffixIsPrefixed(now: int, timestamp: int)
    ensures FormatDistanceToNow(now, timestamp, true) ==
      "il y a " + FormatDistanceToNow(now, timestamp, false)
  {
  }

  /** From a minute on, the count shown is at least one, below the next unit's
      threshold unless it counts years, and written in the singular exactly
      when it is one. */
  lemma CountShown(now: int, timestamp: int)
    requires (now - timestamp) / 1000 >= 60
    ensures var s := (now - timestamp) / 1000;
      var u := UnitFor(s);
      var n := s / UnitSeconds(u);
      && n >= 1
      && (u == Minute ==> n < 60) && (u == Hour ==> n < 24)
      && (u == Day ==> n < 30) && (u == Month ==> n < 12)
      && FormatDistanceToNow(now, timestamp, false) ==
         if n == 1 then UnitWords(u).0 else DecimalString(n) + " " + UnitWords(u).1
  {
    FormatMatchesReference(now, timestamp, false);
  }

  lemma ExampleTwoHoursAgo()
    ensures FormatDistanceToNow(7200000, 0, true) == "il y a 2 heures"
  {
    FormatMatchesReference(7200000, 0, true);
  }
}
