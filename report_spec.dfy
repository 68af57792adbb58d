/**
 * What `SettlementReportManager.createReport` computes, as a value: the
 * instructions bucketed by resolved settlement date, each bucket a day of
 * entity totals.
 *
 * Java walks a `HashSet` of instructions; the model walks a sequence in
 * whatever order that iteration yields. `Instruction` does not override
 * `equals`, so two instructions with equal fields are two elements and both
 * are counted.
 */
module ReportSpec {
  import opened Wrappers
  import opened Calendar
  import opened MapSums
  import opened Transaction
  import opened SettlementDateManager
  import opened DailyTotals

  /** The `dailyReports` map of a settlement report, as values. */
  type Days = map<Day, DayTotals>

  /** The day stored for `date`, or the fresh empty day `createReport` would start. */
  function DayOrEmpty(days: Days, date: Day): DayTotals {
    if date in days then days[date] else map[]
  }

  /** Where instruction `ins` settles under `table`. */
  function SettlesOn(table: RuleTable, ins: Instruction): Result<Day, SettlementError> {
    Resolve(table, ins.settlementDate, ins.currency)
  }

  /** The settlement-date resolver a report is built with. */
  type Settle = Instruction -> Result<Day, SettlementError>

  /**
   * The instructions, visited in order, bucketed by the date `settle` gives
   * each; the first instruction whose date cannot be resolved aborts with
   * its error.
   */
  function Bucket(ins: seq<Instruction>, settle: Settle): Result<Days, SettlementError>
    decreases |ins|
  {
    if ins == [] then Success(map[])
    else
      var front := Bucket(ins[..|ins| - 1], settle);
      if front.Failure? then front
      else
        var last := ins[|ins| - 1];
        var date := settle(last);
        if date.Failure? then Failure(date.error)
        else Success(front.value[date.value := AddToDay(DayOrEmpty(front.value, date.value), last)])
  }

  /** The report `createReport` builds from the instructions with the rules of `table`. */
  function CreateSpec(table: RuleTable, ins: seq<Instruction>): Result<Days, SettlementError> {
    Bucket(ins, t => SettlesOn(table, t))
  }

  /** Once a prefix of the instructions fails, the whole report fails with the same error. */
  lemma {:induction false} BucketPrefixFailure(ins: seq<Instruction>, settle: Settle, k: nat)
    requires k <= |ins| && Bucket(ins[..k], settle).Failure?
    ensures Bucket(ins, settle) == Bucket(ins[..k], settle)
    decreases |ins| - k
  {
    if k < |ins| {
      assert ins[..k + 1][..k] == ins[..k];
      BucketPrefixFailure(ins, settle, k + 1);
    } else {
      assert ins[..k] == ins;
    }
  }

  /**
   * One more instruction: the report fails with its date's error if the date
   * cannot be resolved, and otherwise adds it to the day of its date.
   */
  lemma BucketPrefixStep(ins: seq<Instruction>, settle: Settle, i: nat)
    requires i < |ins| && Bucket(ins[..i], settle).Success?
    ensures settle(ins[i]).Failure? ==> Bucket(ins[..i + 1], settle) == Failure(settle(ins[i]).error)
    ensures settle(ins[i]).Success? ==>
      var previous, date := Bucket(ins[..i], settle).value, settle(ins[i]).value;
      Bucket(ins[..i + 1], settle) == Success(previous[date := AddToDay(DayOrEmpty(previous, date), ins[i])])
  {
    assert ins[..i + 1][..i] == ins[..i];
  }

  /** Instruction `i` is the first whose settlement date cannot be resolved. */
  ghost predicate FirstUnresolved(ins: seq<Instruction>, settle: Settle, i: int) {
    0 <= i < |ins| && settle(ins[i]).Failure?
    && forall j :: 0 <= j < i ==> settle(ins[j]).Success?
  }

  /**
   * A report fails exactly when some instruction's date cannot be resolved,
   * and then with the error of the first such instruction: no report at all.
   */
  lemma {:induction false} BucketFailsIff(ins: seq<Instruction>, settle: Settle)
    ensures Bucket(ins, settle).Failure? <==> exists i :: 0 <= i < |ins| && settle(ins[i]).Failure?
    ensures Bucket(ins, settle).Failure? ==>
      exists i :: FirstUnresolved(ins, settle, i) && Bucket(ins, settle).error == settle(ins[i]).error
    decreases |ins|
  {
    if ins != [] {
      var n := |ins| - 1;
      var front := ins[..n];
      BucketFailsIff(front, settle);
      forall i | 0 <= i < n ensures front[i] == ins[i] { }
      if Bucket(front, settle).Failure? {
        var i :| FirstUnresolved(front, settle, i) && Bucket(front, settle).error == settle(front[i]).error;
        assert FirstUnresolved(ins, settle, i);
      } else if settle(ins[n]).Failure? {
        assert FirstUnresolved(ins, settle, n);
      }
    }
  }

  /** The instructions, in order, that settle on `date`. */
  function OnDay(ins: seq<Instruction>, settle: Settle, date: Day): (r: seq<Instruction>)
    ensures |r| <= |ins|
    decreases |ins|
  {
    if ins == [] then []
    else
      var front := OnDay(ins[..|ins| - 1], settle, date);
      if settle(ins[|ins| - 1]) == Success(date) then front + [ins[|ins| - 1]] else front
  }

  /** Some instruction resolves to `date`. */
  ghost predicate SomeSettleOn(ins: seq<Instruction>, settle: Settle, date: Day) {
    exists i :: 0 <= i < |ins| && settle(ins[i]) == Success(date)
  }

  /** Some instruction resolves to `date` when one before the last does, or the last does. */
  lemma SomeSettleOnStep(ins: seq<Instruction>, settle: Settle, date: Day)
    requires ins != []
    ensures var n := |ins| - 1;
      SomeSettleOn(ins, settle, date) <==> SomeSettleOn(ins[..n], settle, date) || settle(ins[n]) == Success(date)
  {
    var n := |ins| - 1;
    if SomeSettleOn(ins, settle, date) && settle(ins[n]) != Success(date) {
      var i :| 0 <= i < |ins| && settle(ins[i]) == Success(date);
      assert ins[..n][i] == ins[i];
    }
    if SomeSettleOn(ins[..n], settle, date) {
      var i :| 0 <= i < n && settle(ins[..n][i]) == Success(date);
      assert ins[..n][i] == ins[i];
    }
  }

  /** A report that builds was built from a front that builds, with the last instruction added on its resolved date. */
  lemma BucketStep(ins: seq<Instruction>, settle: Settle)
    requires ins != [] && Bucket(ins, settle).Success?
    ensures var n := |ins| - 1;
      Bucket(ins[..n], settle).Success? && settle(ins[n]).Success?
      && Bucket(ins, settle).value.Keys == Bucket(ins[..n], settle).value.Keys + {settle(ins[n]).value}
  {
  }

  /** A report holds one day per distinct resolved date and nothing else. */
  lemma {:induction false} BucketKeys(ins: seq<Instruction>, settle: Settle)
    requires Bucket(ins, settle).Success?
    ensures forall date :: date in Bucket(ins, settle).value <==> SomeSettleOn(ins, settle, date)
    decreases |ins|
  {
    if ins != [] {
      BucketStep(ins, settle);
      BucketKeys(ins[..|ins| - 1], settle);
      forall date ensures date in Bucket(ins, settle).value <==> SomeSettleOn(ins, settle, date) {
        SomeSettleOnStep(ins, settle, date);
      }
    }
  }

  /**
   * The day a report holds for a date is exactly what the instructions
   * settling on it build, in order, from an empty day.
   */
  lemma {:induction false} BucketDays(ins: seq<Instruction>, settle: Settle)
    requires Bucket(ins, settle).Success?
    ensures forall date :: date in Bucket(ins, settle).value ==>
      Bucket(ins, settle).value[date] == DayOf(OnDay(ins, settle, date))
    decreases |ins|
  {
    if ins != [] {
      var n := |ins| - 1;
      var front := ins[..n];
      assert Bucket(front, settle).Success?;
      BucketDays(front, settle);
      var days := Bucket(front, settle).value;
      var d := settle(ins[n]).value;
      assert Bucket(ins, settle).value == days[d := AddToDay(DayOrEmpty(days, d), ins[n])];
      forall date | date in Bucket(ins, settle).value
        ensures Bucket(ins, settle).value[date] == DayOf(OnDay(ins, settle, date))
      {
        if date == d {
          if d !in days {
            assert !SomeSettleOn(front, settle, d) by {
              BucketKeys(front, settle);
            }
            OnDayAbsent(front, settle, d);
          }
          var on := OnDay(ins, settle, d);
          assert on == OnDay(front, settle, d) + [ins[n]];
          assert on[..|on| - 1] == OnDay(front, settle, d);
        } else {
          assert OnDay(ins, settle, date) == OnDay(front, settle, date);
        }
      }
    }
  }

  /** No instruction settles on a date that the report of those instructions lacks. */
  lemma {:induction false} OnDayAbsent(ins: seq<Instruction>, settle: Settle, date: Day)
    requires forall i :: 0 <= i < |ins| ==> settle(ins[i]) != Success(date)
    ensures OnDay(ins, settle, date) == []
    decreases |ins|
  {
    if ins != [] {
      OnDayAbsent(ins[..|ins| - 1], settle, date);
    }
  }

  ghost function DayIncoming(d: DayTotals): real { Total(d, Incoming) }

  ghost function DayOutgoing(d: DayTotals): real { Total(d, Outgoing) }

  /** The sum of one metric over every entity of every day. */
  ghost function GrandTotal(days: Days, metric: Metric): real {
    match metric
    case Incoming => SumBy(days, DayIncoming)
    case Outgoing => SumBy(days, DayOutgoing)
  }

  /** Adding one instruction to one day of a report raises the grand total on its side by its value. */
  lemma GrandTotalAfterAdd(days: Days, date: Day, ins: Instruction, metric: Metric)
    ensures GrandTotal(days[date := AddToDay(DayOrEmpty(days, date), ins)], metric)
         == GrandTotal(days, metric) + Contribution(ins, metric)
  {
    var old_day := DayOrEmpty(days, date);
    var new_day := AddToDay(old_day, ins);
    TotalAfterAdd(old_day, ins, metric);
    if metric == Incoming {
      SumByUpdate(days, DayIncoming, date, new_day);
    } else {
      SumByUpdate(days, DayOutgoing, date, new_day);
    }
  }

  /**
   * Conservation: across all days and entities, the incoming total is the sum
   * of the sell values and the outgoing total the sum of the buy values.
   */
  lemma {:induction false} BucketConserves(ins: seq<Instruction>, settle: Settle, metric: Metric)
    requires Bucket(ins, settle).Success?
    ensures GrandTotal(Bucket(ins, settle).value, metric) == DirectionSum(ins, metric)
    decreases |ins|
  {
    if ins != [] {
      var n := |ins| - 1;
      assert Bucket(ins[..n], settle).Success?;
      BucketConserves(ins[..n], settle, metric);
      GrandTotalAfterAdd(Bucket(ins[..n], settle).value, settle(ins[n]).value, ins[n], metric);
    }
  }
}
