/**
 * The text `DailyReport.toString` and `SettlementReport.toString` produce, as
 * functions of the report's values. The currency and date formatters are
 * parameters: `formatMoney` stands for the USD `NumberFormat` currency
 * instance, `formatDate` for the `dd MMM yyyy` `SimpleDateFormat`.
 */
module ReportLayout {
  import opened JavaStrings
  import opened Calendar
  import opened MapSums
  import opened DailyTotals
  import opened EntityRanks
  import opened ReportSpec

  /** The four lines of one day: both totals, each followed by its ranking. */
  ghost function DayText(t: DayTotals, formatMoney: real -> string): string {
    "Incoming: " + formatMoney(Total(t, Incoming))
    + "\nIncoming entity ranks: " + Join(Ranking(t, Incoming), ", ")
    + "\nOutgoing: " + formatMoney(Total(t, Outgoing))
    + "\nOutgoing entity ranks: " + Join(Ranking(t, Outgoing), ", ")
    + "\n"
  }

  /** The earliest of a non-empty set of dates. */
  ghost function MinDay(keys: set<Day>): (m: Day)
    requires keys != {}
    ensures m in keys && forall k :: k in keys ==> m <= k
    decreases keys
  {
    var x := Pick(keys);
    if keys == {x} then x
    else
      var rest := MinDay(keys - {x});
      assert forall k :: k in keys ==> k == x || k in keys - {x};
      if x < rest then x else rest
  }

  /** The block of one day: its formatted date line, then its four lines. */
  ghost function DayEntry(days: Days, date: Day, formatDate: Day -> string, formatMoney: real -> string): string
    requires date in days
  {
    "On " + formatDate(date) + ":\n" + DayText(days[date], formatMoney)
  }

  /** The blocks of the days in `keys`, earliest first, as the date-ordered `TreeMap` walks them. */
  ghost function Body(days: Days, keys: set<Day>, formatDate: Day -> string, formatMoney: real -> string): string
    requires keys <= days.Keys
    decreases keys
  {
    if keys == {} then ""
    else
      var m := MinDay(keys);
      DayEntry(days, m, formatDate, formatMoney) + Body(days, keys - {m}, formatDate, formatMoney)
  }

  const ReportHeader: string := "Settlement Report :\n"

  /** The whole report: the header line, then every day's block in date order. */
  ghost function ReportText(days: Days, formatDate: Day -> string, formatMoney: real -> string): string {
    ReportHeader + Body(days, days.Keys, formatDate, formatMoney)
  }

  /** The dates of `keys`, earliest first (`AscendingMeaning` states the order). */
  ghost function Ascending(keys: set<Day>): (r: seq<Day>)
    ensures forall d :: d in r ==> d in keys
    decreases keys
  {
    if keys == {} then []
    else [MinDay(keys)] + Ascending(keys - {MinDay(keys)})
  }

  /** Dates in strictly increasing order. */
  ghost predicate Increasing(r: seq<Day>) {
    forall i, j :: 0 <= i < j < |r| ==> r[i] < r[j]
  }

  /** A date earlier than every date of an increasing sequence extends it at the front. */
  lemma PrependIncreasing(m: Day, rest: seq<Day>)
    requires Increasing(rest) && forall d :: d in rest ==> m < d
    ensures Increasing([m] + rest)
  {
    var r := [m] + rest;
    forall i, j | 0 <= i < j < |r| ensures r[i] < r[j] {
      assert r[j] == rest[j - 1] && rest[j - 1] in rest;
      if i > 0 {
        assert r[i] == rest[i - 1];
      }
    }
  }

  /** `Ascending` lists every date of `keys` exactly once, in strictly increasing order. */
  lemma AscendingMeaning(keys: set<Day>)
    ensures |Ascending(keys)| == |keys|
    ensures forall d :: d in Ascending(keys) <==> d in keys
    ensures Increasing(Ascending(keys))
  {
    AscendingMembers(keys);
    AscendingIncreasing(keys);
  }

  lemma {:induction false} AscendingMembers(keys: set<Day>)
    ensures |Ascending(keys)| == |keys|
    ensures forall d :: d in keys ==> d in Ascending(keys)
    decreases keys
  {
    if keys != {} {
      var m := MinDay(keys);
      var later := keys - {m};
      var rest := Ascending(later);
      AscendingMembers(later);
      assert Ascending(keys) == [m] + rest;
      forall d | d in keys ensures d in Ascending(keys) {
        if d != m {
          assert d in later && d in rest;
        }
      }
    }
  }

  lemma {:induction false} AscendingIncreasing(keys: set<Day>)
    ensures Increasing(Ascending(keys))
    decreases keys
  {
    if keys != {} {
      var m := MinDay(keys);
      var later := keys - {m};
      var rest := Ascending(later);
      AscendingIncreasing(later);
      assert Ascending(keys) == [m] + rest;
      forall d | d in rest ensures m < d {
        assert d in later;
      }
      PrependIncreasing(m, rest);
    }
  }

  /** The blocks of the given dates, in the order given. */
  ghost function Entries(days: Days, dates: seq<Day>, formatDate: Day -> string, formatMoney: real -> string): string
    requires forall d :: d in dates ==> d in days
    decreases |dates|
  {
    if dates == [] then ""
    else DayEntry(days, dates[0], formatDate, formatMoney) + Entries(days, dates[1..], formatDate, formatMoney)
  }

  lemma {:induction false} BodyAscending(days: Days, keys: set<Day>, formatDate: Day -> string, formatMoney: real -> string)
    requires keys <= days.Keys
    ensures Body(days, keys, formatDate, formatMoney) == Entries(days, Ascending(keys), formatDate, formatMoney)
    decreases keys
  {
    if keys != {} {
      var m := MinDay(keys);
      BodyAscending(days, keys - {m}, formatDate, formatMoney);
      assert Ascending(keys)[1..] == Ascending(keys - {m});
    }
  }

  /**
   * The report lists every day of the report exactly once, in strictly
   * increasing date order, after its header.
   */
  lemma ReportInDateOrder(days: Days, formatDate: Day -> string, formatMoney: real -> string)
    ensures ReportText(days, formatDate, formatMoney)
         == ReportHeader + Entries(days, Ascending(days.Keys), formatDate, formatMoney)
    ensures |Ascending(days.Keys)| == |days|
    ensures forall d :: d in Ascending(days.Keys) <==> d in days
    ensures Increasing(Ascending(days.Keys))
  {
    BodyAscending(days, days.Keys, formatDate, formatMoney);
    AscendingMeaning(days.Keys);
  }
}
