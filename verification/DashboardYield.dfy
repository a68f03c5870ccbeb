/**
 The best and worst yields of the recent jobs (web/app_pages.go). New shares are exact;
 they are compared with shares re-read from the printed, rounded labels.

 Shares are real numbers, and labels are rounded to a tenth of a percent, ties to even.
 */
module DashboardYield {
  import opened Wrappers
  import opened Decimal

  datatype Job = Job(id: string, name: string)

  datatype Stats = Stats(rows: int, unique: nat, duplicates: nat, withEmail: nat)

  datatype Report = Report(job: Job, rawRecords: int, stats: Stats)

  datatype Summary = Summary(
    jobs: nat, raw: int, unique: nat, duplicates: nat, emails: nat,
    uniqueYield: string, duplicateShare: string, emailShare: string,
    uniquePercent: int, duplicatePercent: int, emailPercent: int,
    bestID: string, bestName: string, bestYield: string,
    worstID: string, worstName: string, worstYield: string)

  const EMPTY := Summary(0, 0, 0, 0, 0, "", "", "", 0, 0, 0, "", "", "", "", "", "")

  // ---------- Labels ----------

  function RoundHalfEven(x: real): int {
    var f := x.Floor;
    var d := x - f as real;
    if d < 0.5 then f else if d > 0.5 then f + 1 else if f % 2 == 0 then f else f + 1
  }

  /** A number of tenths with one decimal, and a percent sign. */
  function FormatTenths(tenths: nat): string {
    Itoa(tenths / 10) + "." + [Digit(tenths % 10)] + "%"
  }

  function Tenths(numerator: nat, denominator: int): nat
    requires denominator > 0
  {
    RatioIsNotNegative(numerator as real, denominator as real);
    RoundHalfEven(1000.0 * (numerator as real / denominator as real))
  }

  lemma RatioIsNotNegative(x: real, y: real)
    requires x >= 0.0 && y > 0.0
    ensures x / y >= 0.0
  {
  }

  function RatioLabel(numerator: nat, denominator: int): string {
    if denominator <= 0 then "—" else FormatTenths(Tenths(numerator, denominator))
  }

  function DotIndex(s: string): nat
    ensures DotIndex(s) <= |s|
  {
    if s == "" || s[0] == '.' then 0 else 1 + DotIndex(s[1..])
  }

  function PowerOfTen(n: nat): nat
    ensures PowerOfTen(n) > 0
  {
    if n == 0 then 1 else 10 * PowerOfTen(n - 1)
  }

  /** Plain decimals; everything else is an error, which the caller turns into zero. */
  function ParseFloat(s: string): Option<real> {
    var k := DotIndex(s);
    var fraction := if k < |s| then s[k + 1..] else "";
    if AllDigits(s[..k]) && AllDigits(fraction) && (k > 0 || fraction != "")
    then Some(Decimals(Value(s[..k]), Value(fraction), |fraction|))
    else None
  }

  function Decimals(whole: nat, fraction: nat, digits: nat): real {
    whole as real + fraction as real / PowerOfTen(digits) as real
  }

  function TrimSpace(s: string): string {
    if s == "" then s
    else if s[0] == ' ' then TrimSpace(s[1..])
    else if s[|s| - 1] == ' ' then TrimSpace(s[..|s| - 1])
    else s
  }

  function ParsePercentLabel(shown: string): real {
    var t := TrimSpace(shown);
    var trimmed := if t != "" && t[|t| - 1] == '%' then t[..|t| - 1] else t;
    var value := ParseFloat(trimmed);
    if value.Some? then value.value / 100.0 else 0.0
  }

  lemma {:induction false} DotAfterDigits(s: string, rest: string)
    requires AllDigits(s)
    ensures DotIndex(s + "." + rest) == |s|
  {
    if s != "" {
      assert (s + "." + rest)[1..] == s[1..] + "." + rest;
      DotAfterDigits(s[1..], rest);
    }
  }

  /** A printed label reads back as the number that it shows. */
  lemma LabelReadsBack(tenths: nat)
    ensures ParsePercentLabel(FormatTenths(tenths)) == tenths as real / 1000.0
  {
    var whole, digit := Itoa(tenths / 10), [Digit(tenths % 10)];
    ItoaReadsBack(tenths / 10);
    DigitReadsBack(tenths % 10);
    assert digit[..0] == "" && Value(digit) == tenths % 10;
    NumberReadsBack(whole, digit);
    OneDecimal(tenths / 10, tenths % 10);
    PercentIsCut(whole + "." + digit);
    assert FormatTenths(tenths) == whole + "." + digit + "%";
    assert (tenths / 10) as real + (tenths % 10) as real / 10.0 == tenths as real / 10.0;
  }

  lemma NumberReadsBack(whole: string, digit: string)
    requires whole != "" && AllDigits(whole) && |digit| == 1 && AllDigits(digit)
    ensures ParseFloat(whole + "." + digit) == Some(Decimals(Value(whole), Value(digit), 1))
  {
    var number := whole + "." + digit;
    DotAfterDigits(whole, digit);
    assert number[..|whole|] == whole && number[|whole| + 1..] == digit;
  }

  lemma OneDecimal(whole: nat, digit: nat)
    ensures Decimals(whole, digit, 1) == whole as real + digit as real / 10.0
  {
    assert PowerOfTen(0) == 1 && PowerOfTen(1) == 10;
  }

  lemma PercentIsCut(number: string)
    requires number != "" && number[0] != ' '
    ensures ParsePercentLabel(number + "%")
            == if ParseFloat(number).Some? then ParseFloat(number).value / 100.0 else 0.0
  {
    var shown := number + "%";
    assert shown[0] == number[0] && shown[|shown| - 1] == '%' && shown[..|shown| - 1] == number;
    assert TrimSpace(shown) == shown;
  }

  lemma RoundHalfEvenIsMonotone(x: real, y: real)
    requires x <= y
    ensures RoundHalfEven(x) <= RoundHalfEven(y)
  {
    assert x.Floor <= y.Floor;
  }

  lemma RoundHalfEvenKeepsIntegers(n: int)
    ensures RoundHalfEven(n as real) == n
  {
  }

  lemma RoundHalfEvenIsClose(x: real)
    ensures -0.5 <= RoundHalfEven(x) as real - x <= 0.5
  {
  }

  /** A printed share is within half a unit of its last digit of the share. */
  lemma LabelIsTheShare(numerator: nat, denominator: int)
    requires denominator > 0
    ensures var share := numerator as real / denominator as real;
            -0.0005 <= ParsePercentLabel(RatioLabel(numerator, denominator)) - share <= 0.0005
  {
    LabelReadsBack(Tenths(numerator, denominator));
    RoundHalfEvenIsClose(1000.0 * (numerator as real / denominator as real));
  }

  /** Comparing an exact share with a printed one decides the order of the printed ones. */
  lemma ComparisonRespectsLabels(unique: nat, raw: int, tenths: nat)
    requires raw > 0
    ensures var share, printed := unique as real / raw as real, ParsePercentLabel(FormatTenths(tenths));
            && (share > printed ==> Tenths(unique, raw) >= tenths)
            && (share <= printed ==> Tenths(unique, raw) <= tenths)
            && (share < printed ==> Tenths(unique, raw) <= tenths)
            && (share >= printed ==> Tenths(unique, raw) >= tenths)
  {
    LabelReadsBack(tenths);
    var share := unique as real / raw as real;
    RoundHalfEvenKeepsIntegers(tenths);
    if share >= tenths as real / 1000.0 {
      RoundHalfEvenIsMonotone(tenths as real, 1000.0 * share);
    }
    if share <= tenths as real / 1000.0 {
      RoundHalfEvenIsMonotone(1000.0 * share, tenths as real);
    }
  }

  // ---------- Accumulation ----------

  /** The raw count of a report: its own, or the number of stored rows. */
  function RawOf(r: Report): int {
    if r.rawRecords <= 0 then r.stats.rows else r.rawRecords
  }

  function AddTotals(y: Summary, raw: int, s: Stats): Summary {
    y.(jobs := y.jobs + 1, raw := y.raw + raw, unique := y.unique + s.unique,
       duplicates := y.duplicates + s.duplicates, emails := y.emails + s.withEmail)
  }

  function OfferBest(y: Summary, job: Job, share: real, shown: string): Summary {
    if y.bestName == "" || share > ParsePercentLabel(y.bestYield)
    then y.(bestID := job.id, bestName := job.name, bestYield := shown) else y
  }

  function OfferWorst(y: Summary, job: Job, share: real, shown: string): Summary {
    if y.worstName == "" || share < ParsePercentLabel(y.worstYield)
    then y.(worstID := job.id, worstName := job.name, worstYield := shown) else y
  }

  function Accumulate(y: Summary, r: Report): Summary {
    var raw := RawOf(r);
    if raw <= 0 then y
    else
      var share, shown := r.stats.unique as real / raw as real, RatioLabel(r.stats.unique, raw);
      OfferWorst(OfferBest(AddTotals(y, raw, r.stats), r.job, share, shown), r.job, share, shown)
  }

  function AccumulateAll(reports: seq<Report>): Summary {
    if reports == [] then EMPTY else Accumulate(AccumulateAll(reports[..|reports| - 1]), reports[|reports| - 1])
  }

  function Percentage(value: int, total: int): int {
    if value <= 0 || total <= 0 then 0
    else
      var p := (value as real / total as real * 100.0 + 0.5).Floor;
      if p < 100 then p else 100
  }

  /** A whole percentage: zero without values or without a total, else the share to the nearest percent, at most 100. */
  lemma PercentageIsTheShare(value: int, total: int)
    ensures 0 <= Percentage(value, total) <= 100
    ensures value <= 0 || total <= 0 ==> Percentage(value, total) == 0
    ensures 0 < value <= total ==>
              var share := value as real / total as real * 100.0;
              -0.5 <= Percentage(value, total) as real - share <= 0.5
    ensures 0 < total <= value ==> Percentage(value, total) == 100
  {
    if value > 0 && total > 0 {
      var share := value as real / total as real;
      RatioIsNotNegative(value as real, total as real);
      assert share * total as real == value as real;
      if value <= total {
        RatioAtMostOne(value as real, total as real);
      }
      if total <= value {
        RatioAtLeastOne(value as real, total as real);
      }
    }
  }

  lemma RatioAtMostOne(x: real, y: real)
    requires 0.0 <= x <= y && y > 0.0
    ensures x / y <= 1.0
  {
  }

  lemma RatioAtLeastOne(x: real, y: real)
    requires x >= y > 0.0
    ensures x / y >= 1.0
  {
  }

  function Finalise(y: Summary): Summary {
    if y.jobs == 0 || y.raw <= 0 then EMPTY
    else
      var y1 := y.(uniqueYield := RatioLabel(y.unique, y.raw), duplicateShare := RatioLabel(y.duplicates, y.raw),
                   emailShare := RatioLabel(y.emails, y.unique), uniquePercent := Percentage(y.unique, y.raw),
                   duplicatePercent := Percentage(y.duplicates, y.raw), emailPercent := Percentage(y.emails, y.unique));
      if y1.bestID == y1.worstID then y1.(worstID := "", worstName := "", worstYield := "") else y1
  }

  /** The card's record, which the two functions of the source update in place. */
  class Yield {
    var y: Summary

    constructor ()
      ensures y == EMPTY
    {
      y := EMPTY;
    }

    method Add(r: Report)
      modifies this
      ensures y == Accumulate(old(y), r)
    {
      var raw := r.rawRecords;
      if raw <= 0 {
        raw := r.stats.rows;
      }
      if raw <= 0 {
        return;
      }
      Record(r.job, raw, r.stats, r.stats.unique as real / raw as real, RatioLabel(r.stats.unique, raw));
    }

    method Record(job: Job, raw: int, stats: Stats, share: real, shown: string)
      modifies this
      ensures y == OfferWorst(OfferBest(AddTotals(old(y), raw, stats), job, share, shown), job, share, shown)
    {
      y := y.(jobs := y.jobs + 1, raw := y.raw + raw, unique := y.unique + stats.unique,
              duplicates := y.duplicates + stats.duplicates, emails := y.emails + stats.withEmail);
      Compare(job, share, shown);
    }

    /** The two comparisons at the end of an accumulation. */
    method Compare(job: Job, share: real, shown: string)
      modifies this
      ensures y == OfferWorst(OfferBest(old(y), job, share, shown), job, share, shown)
    {
      if y.bestName == "" || share > ParsePercentLabel(y.bestYield) {
        y := y.(bestID := job.id, bestName := job.name, bestYield := shown);
      }
      if y.worstName == "" || share < ParsePercentLabel(y.worstYield) {
        y := y.(worstID := job.id, worstName := job.name, worstYield := shown);
      }
    }

    method Close()
      modifies this
      ensures y == Finalise(old(y))
    {
      if y.jobs == 0 || y.raw <= 0 {
        y := EMPTY;
        return;
      }
      y := y.(uniqueYield := RatioLabel(y.unique, y.raw));
      y := y.(duplicateShare := RatioLabel(y.duplicates, y.raw));
      y := y.(emailShare := RatioLabel(y.emails, y.unique));
      y := y.(uniquePercent := Percentage(y.unique, y.raw));
      y := y.(duplicatePercent := Percentage(y.duplicates, y.raw));
      y := y.(emailPercent := Percentage(y.emails, y.unique));
      if y.bestID == y.worstID {
        y := y.(worstID := "", worstName := "", worstYield := "");
      }
    }
  }

  // ---------- Main results ----------

  /** The reports that produced raw records, in order. */
  function Contributing(reports: seq<Report>): seq<Report> {
    if reports == [] then []
    else
      var init, last := Contributing(reports[..|reports| - 1]), reports[|reports| - 1];
      if RawOf(last) > 0 then init + [last] else init
  }

  function PrintedTenths(r: Report): nat
    requires RawOf(r) > 0
  {
    Tenths(r.stats.unique, RawOf(r))
  }

  /**
   `r` is a contributing report that prints the name, id and yield, and no contributing report prints a higher
   (lower) yield.
   */
  ghost predicate IsExtreme(reports: seq<Report>, r: Report, highest: bool, id: string, name: string, shown: string) {
    && r in Contributing(reports) && RawOf(r) > 0
    && id == r.job.id && name == r.job.name && shown == FormatTenths(PrintedTenths(r))
    && forall x :: x in Contributing(reports) && RawOf(x) > 0 ==>
         if highest then PrintedTenths(x) <= PrintedTenths(r) else PrintedTenths(x) >= PrintedTenths(r)
  }

  lemma {:induction false} ContributorsHaveRecords(reports: seq<Report>)
    ensures forall x :: x in Contributing(reports) ==> RawOf(x) > 0 && x in reports
  {
    if reports != [] {
      ContributorsHaveRecords(reports[..|reports| - 1]);
    }
  }

  /** Despite the rounding, the printed best is the maximum of all printed yields and the printed worst the minimum. */
  lemma {:induction false} BestAndWorstAreExtreme(reports: seq<Report>) returns (best: Report, worst: Report)
    requires forall r :: r in reports ==> r.job.name != ""
    requires Contributing(reports) != []
    ensures var y := AccumulateAll(reports);
            && IsExtreme(reports, best, true, y.bestID, y.bestName, y.bestYield)
            && IsExtreme(reports, worst, false, y.worstID, y.worstName, y.worstYield)
  {
    var n := |reports| - 1;
    var init, last := reports[..n], reports[n];
    assert reports == init + [last];
    ContributorsHaveRecords(reports);
    if Contributing(init) == [] {
      NothingYet(init);
      best, worst := last, last;
    } else {
      best, worst := BestAndWorstAreExtreme(init);
      if RawOf(last) > 0 {
        ContributorsHaveRecords(init);
        best := NextBest(init, last, best);
        worst := NextWorst(init, last, worst);
      }
    }
  }

  lemma NextBest(init: seq<Report>, last: Report, before: Report) returns (best: Report)
    requires RawOf(last) > 0 && before.job.name != ""
    requires var y := AccumulateAll(init); IsExtreme(init, before, true, y.bestID, y.bestName, y.bestYield)
    ensures var y := AccumulateAll(init + [last]);
            IsExtreme(init + [last], best, true, y.bestID, y.bestName, y.bestYield)
  {
    assert (init + [last])[..|init|] == init;
    ComparisonRespectsLabels(last.stats.unique, RawOf(last), PrintedTenths(before));
    var share := last.stats.unique as real / RawOf(last) as real;
    best := if share > ParsePercentLabel(AccumulateAll(init).bestYield) then last else before;
  }

  lemma NextWorst(init: seq<Report>, last: Report, before: Report) returns (worst: Report)
    requires RawOf(last) > 0 && before.job.name != ""
    requires var y := AccumulateAll(init); IsExtreme(init, before, false, y.worstID, y.worstName, y.worstYield)
    ensures var y := AccumulateAll(init + [last]);
            IsExtreme(init + [last], worst, false, y.worstID, y.worstName, y.worstYield)
  {
    assert (init + [last])[..|init|] == init;
    ComparisonRespectsLabels(last.stats.unique, RawOf(last), PrintedTenths(before));
    var share := last.stats.unique as real / RawOf(last) as real;
    worst := if share < ParsePercentLabel(AccumulateAll(init).worstYield) then last else before;
  }

  lemma {:induction false} NothingYet(reports: seq<Report>)
    requires Contributing(reports) == []
    ensures AccumulateAll(reports) == EMPTY
  {
    if reports != [] {
      NothingYet(reports[..|reports| - 1]);
    }
  }

  /** The finished card shows a worst job only beside a different best one, and then both are the extremes. */
  lemma FinishedCardIsRight(reports: seq<Report>) returns (best: Report, worst: Report)
    requires forall r :: r in reports ==> r.job.name != ""
    requires Contributing(reports) != []
    ensures var y := Finalise(AccumulateAll(reports));
            && IsExtreme(reports, best, true, y.bestID, y.bestName, y.bestYield)
            && (y.worstName != "" ==>
                  y.worstID != y.bestID && IsExtreme(reports, worst, false, y.worstID, y.worstName, y.worstYield))
            && (y.worstName == "" <==> AccumulateAll(reports).worstID == AccumulateAll(reports).bestID)
  {
    best, worst := BestAndWorstAreExtreme(reports);
    TotalsArePositive(reports);
    ContributorsHaveRecords(reports);
  }

  lemma {:induction false} TotalsArePositive(reports: seq<Report>)
    ensures AccumulateAll(reports).jobs == |Contributing(reports)|
    ensures AccumulateAll(reports).raw >= AccumulateAll(reports).jobs
  {
    if reports != [] {
      TotalsArePositive(reports[..|reports| - 1]);
    }
  }
}
