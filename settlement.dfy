/**
 * The objects of package `settlement` and the static operations of
 * `SettlementReportManager`: entity reports whose two totals grow in place,
 * daily reports that own one entity report per entity (names compared
 * ignoring case), settlement reports that own one daily report per date, the
 * report construction from a set of instructions, and the text of a report.
 *
 * Each object's state is tied to the values of `DailyTotals` and
 * `ReportSpec`, where the properties are proved.
 */
module Settlement {
  import opened Wrappers
  import opened JavaStrings
  import opened Calendar
  import opened MapSums
  import opened Transaction
  import opened SettlementDateManager
  import opened DailyTotals
  import opened EntityRanks
  import opened ReportSpec
  import opened ReportLayout

  /** The running incoming and outgoing USD totals of one entity on one day. */
  class EntityReport {
    var incomingValue: real
    var outgoingValue: real
    const entity: string
    /** The daily report this report belongs to. */
    ghost const owner: DailyReport
    /** The state of this report, as a value. */
    function Totals(): EntityTotals
      reads this
    {
      EntityTotals(entity, incomingValue, outgoingValue)
    }

    constructor(entity: string, ghost owner: DailyReport)
      ensures this.owner == owner
      ensures this.entity == entity && incomingValue == 0.0 && outgoingValue == 0.0
    {
      this.entity := entity;
      this.owner := owner;
      incomingValue := 0.0;
      outgoingValue := 0.0;
    }

    method AddIncomingValue(instructionValue: real)
      modifies this
      ensures incomingValue == old(incomingValue) + instructionValue && outgoingValue == old(outgoingValue)
    {
      incomingValue := incomingValue + instructionValue;
    }

    method AddOutgoingValue(instructionValue: real)
      modifies this
      ensures outgoingValue == old(outgoingValue) + instructionValue && incomingValue == old(incomingValue)
    {
      outgoingValue := outgoingValue + instructionValue;
    }
  }

  /**
   * The entity reports of one settlement day. Java's `TreeMap` compares keys
   * by their upper-cased form; here the key is that form, and the report
   * under it keeps the spelling first seen.
   */
  class DailyReport {
    var entityReports: map<string, EntityReport>
    /** The state of the day, as the value `DailyTotals` reasons about. */
    ghost var totals: DayTotals

    /**
     * Every report sits under its upper-cased entity name, belongs to this
     * day and is what `totals` records for that key; no two keys share a
     * report.
     */
    ghost predicate Valid()
      reads this, entityReports.Values
    {
      entityReports.Keys == totals.Keys
      && (forall k :: k in entityReports ==>
            Upper(entityReports[k].entity) == k && entityReports[k].owner == this
            && entityReports[k].Totals() == totals[k])
      && (forall k, k' :: k in entityReports && k' in entityReports && k != k' ==> entityReports[k] != entityReports[k'])
    }

    constructor()
      ensures Valid() && entityReports == map[] && totals == map[]
    {
      entityReports := map[];
      totals := map[];
    }

    /**
     * The report of `entity`, looked up ignoring case; when there is none, a
     * new zero report under this spelling is stored and returned.
     */
    method EntityReportFor(entity: string) returns (entityReport: EntityReport)
      requires Valid()
      modifies this
      ensures Valid()
      ensures Upper(entity) in entityReports && entityReports[Upper(entity)] == entityReport
      ensures Upper(entity) in old(entityReports) ==> entityReports == old(entityReports) && totals == old(totals)
      ensures Upper(entity) !in old(entityReports) ==>
        fresh(entityReport) && entityReports == old(entityReports)[Upper(entity) := entityReport]
        && totals == old(totals)[Upper(entity) := EntityTotals(entity, 0.0, 0.0)]
    {
      var key := Upper(entity);
      if key in entityReports {
        entityReport := entityReports[key];
      } else {
        entityReport := new EntityReport(entity, this);
        entityReports := entityReports[key := entityReport];
        totals := totals[key := entityReport.Totals()];
      }
    }

    /** Adds the instruction's value to the side of the report under `key` that its direction selects. */
    method CreditEntity(key: string, instruction: Instruction)
      requires Valid() && key in entityReports
      modifies this, entityReports[key]
      ensures Valid()
      ensures entityReports == old(entityReports)
      ensures totals == old(totals)[key := Credit(old(totals)[key], instruction)]
    {
      var entityReport := entityReports[key];
      assert forall k :: k in entityReports && k != key ==> entityReports[k] != entityReport;
      var instructionValue := InstructionValue(instruction);
      ghost var credited := Credit(totals[key], instruction);
      match instruction.transactionDirection {
        case S =>
          assert credited == totals[key].(incoming := totals[key].incoming + instructionValue);
          entityReport.AddIncomingValue(instructionValue);
        case B =>
          assert credited == totals[key].(outgoing := totals[key].outgoing + instructionValue);
          entityReport.AddOutgoingValue(instructionValue);
      }
      assert entityReport.Totals() == credited;
      totals := totals[key := credited];
    }

    /**
     * `addInstruction`: finds or creates the entity's report and adds the
     * instruction's value to the side its direction selects.
     */
    method AddInstruction(instruction: Instruction)
      requires Valid()
      modifies this, entityReports.Values
      ensures Valid()
      ensures totals == AddToDay(old(totals), instruction)
      ensures forall k :: k in old(entityReports) ==> k in entityReports && entityReports[k] == old(entityReports[k])
      ensures fresh(entityReports.Values - old(entityReports.Values))
    {
      ghost var key := Upper(instruction.entity);
      ghost var current := if key in totals then totals[key] else EntityTotals(instruction.entity, 0.0, 0.0);
      ghost var expected := totals[key := Credit(current, instruction)];
      assert expected == AddToDay(totals, instruction);
      ghost var held := entityReports;
      var entityReport := EntityReportFor(instruction.entity);
      assert totals[key := Credit(current, instruction)] == expected;
      CreditEntity(Upper(instruction.entity), instruction);
      assert entityReports == held || (key !in held && entityReports == held[key := entityReport]);
    }

    /**
     * `toString`: both totals in the currency format, each followed by the
     * entity names ranked on it, one item per line.
     */
    method ToString(formatMoney: real -> string) returns (s: string)
      requires Valid()
      ensures s == DayText(totals, formatMoney)
    {
      var aggregate := AggregateIncomingOutgoing(this);
      s := "Incoming: ";
      s := s + formatMoney(aggregate[0]);
      s := s + "\nIncoming entity ranks: ";
      var sortedByIncoming := SortIncoming(this);
      s := s + Join(sortedByIncoming, ", ");
      s := s + "\nOutgoing: ";
      s := s + formatMoney(aggregate[1]);
      s := s + "\nOutgoing entity ranks: ";
      var sortedByOutgoing := SortOutgoing(this);
      s := s + Join(sortedByOutgoing, ", ");
      s := s + "\n";
    }

    /** The totals of a valid day sit under the upper-cased names they keep. */
    lemma TotalsWellKeyed()
      requires Valid()
      ensures WellKeyed(totals)
    {
    }
  }

  /** The daily reports hold, date by date, exactly the days of `days`. */
  ghost predicate Mirrors(reports: map<Day, DailyReport>, days: Days)
    reads reports.Values
  {
    reports.Keys == days.Keys && forall d :: d in reports ==> reports[d].totals == days[d]
  }

  /** No two dates share a daily report. */
  predicate Distinct(reports: map<Day, DailyReport>) {
    forall d, d' :: d in reports && d' in reports && d != d' ==> reports[d] != reports[d']
  }

  /**
   * Every day is valid and keeps its entity reports among `entities`. With
   * `Distinct`, and as each entity report belongs to one daily report, no two
   * dates share an entity report, so adding to one day leaves the others alone.
   */
  ghost predicate Separate(reports: map<Day, DailyReport>, entities: set<EntityReport>)
    reads reports.Values, entities
  {
    forall d :: d in reports ==> reports[d].entityReports.Values <= entities && reports[d].Valid()
  }

  /** The daily reports of a settlement, walked in date order. */
  class SettlementReport {
    var dailyReports: map<Day, DailyReport>
    /** The report as the value `ReportSpec` reasons about. */
    ghost var days: Days
    /** The entity reports of all days. */
    ghost var entities: set<EntityReport>

    ghost predicate Valid()
      reads this, dailyReports.Values, entities
    {
      Distinct(dailyReports) && Separate(dailyReports, entities) && Mirrors(dailyReports, days)
    }

    /** Copies the given daily reports, as `putAll` into the date-ordered map does. */
    constructor(dailyReports: map<Day, DailyReport>, ghost days: Days, ghost entities: set<EntityReport>)
      ensures this.dailyReports == dailyReports && this.days == days && this.entities == entities
    {
      this.dailyReports := dailyReports;
      this.days := days;
      this.entities := entities;
    }

    /**
     * `toString`: the header line, then for every date, earliest first, the
     * formatted date and the day's own text.
     */
    method ToString(formatDate: Day -> string, formatMoney: real -> string) returns (s: string)
      requires Valid()
      ensures s == ReportText(days, formatDate, formatMoney)
    {
      s := ReportHeader;
      var remaining := dailyReports.Keys;
      assert days.Keys == remaining;
      while remaining != {}
        invariant remaining <= dailyReports.Keys
        invariant s + Body(days, remaining, formatDate, formatMoney) == ReportText(days, formatDate, formatMoney)
        decreases remaining
      {
        var date := EarliestDate(remaining);
        ghost var entry := DayEntry(days, date, formatDate, formatMoney);
        ghost var later := Body(days, remaining - {date}, formatDate, formatMoney);
        assert Body(days, remaining, formatDate, formatMoney) == entry + later;
        var dailyReport := dailyReports[date];
        assert dailyReport.Valid() && dailyReport.totals == days[date];
        var dayText := dailyReport.ToString(formatMoney);
        var block := "On " + formatDate(date) + ":\n" + dayText;
        assert block == entry;
        AppendAssociates(s, block, later);
        s := s + block;
        remaining := remaining - {date};
      }
    }
  }

  lemma AppendAssociates(a: string, b: string, c: string)
    ensures (a + b) + c == a + (b + c)
  {
  }

  /** The earliest date of a non-empty set, found by one pass over it. */
  method EarliestDate(dates: set<Day>) returns (earliest: Day)
    requires dates != {}
    ensures earliest == MinDay(dates)
  {
    ghost var first := Pick(dates);  // a witness that the choice below exists
    earliest :| earliest in dates;
    var rest := dates - {earliest};
    while rest != {}
      invariant rest <= dates && earliest in dates
      invariant forall k :: k in dates && k !in rest ==> earliest <= k
      decreases rest
    {
      ghost var next := Pick(rest);  // a witness that the choice below exists
      var k :| k in rest;
      if k < earliest {
        earliest := k;
      }
      rest := rest - {k};
    }
  }

  /**
   * `aggregateIncomingOutgoing`: a new two-element array holding the day's
   * incoming total at index 0 and its outgoing total at index 1.
   */
  method AggregateIncomingOutgoing(report: DailyReport) returns (result: array<real>)
    requires report.Valid()
    ensures fresh(result) && result.Length == 2
    ensures result[0] == Total(report.totals, Incoming) && result[1] == Total(report.totals, Outgoing)
  {
    result := new real[2];
    result[0] := 0.0;
    result[1] := 0.0;
    var remaining := report.entityReports.Keys;
    ghost var left := report.totals;
    while remaining != {}
      invariant remaining == left.Keys
      invariant forall k :: k in left ==> k in report.totals && left[k] == report.totals[k]
      invariant result[0] + SumBy(left, IncomingOf) == SumBy(report.totals, IncomingOf)
      invariant result[1] + SumBy(left, OutgoingOf) == SumBy(report.totals, OutgoingOf)
      decreases remaining
    {
      var key :| key in remaining;
      var entityReport := report.entityReports[key];
      SumByRemove(left, IncomingOf, key);
      SumByRemove(left, OutgoingOf, key);
      result[0] := result[0] + entityReport.incomingValue;
      result[1] := result[1] + entityReport.outgoingValue;
      remaining := remaining - {key};
      left := left - {key};
    }
  }

  /** `sortIncoming`: the day's entity names ranked by incoming total. */
  method SortIncoming(report: DailyReport) returns (names: seq<string>)
    requires report.Valid()
    ensures names == Ranking(report.totals, Incoming)
  {
    names := SortEntities(report, Incoming);
  }

  /** `sortOutgoing`: the day's entity names ranked by outgoing total. */
  method SortOutgoing(report: DailyReport) returns (names: seq<string>)
    requires report.Valid()
    ensures names == Ranking(report.totals, Outgoing)
  {
    names := SortEntities(report, Outgoing);
  }

  /**
   * `sortEntities`: collects the day's entity reports in whatever order the
   * map yields them, sorts them by the metric, then by name, and keeps the
   * names. The result is the ranking whatever that order was.
   */
  method SortEntities(report: DailyReport, metric: Metric) returns (names: seq<string>)
    requires report.Valid()
    ensures names == Ranking(report.totals, metric)
  {
    var values := CollectEntityTotals(report);
    report.TotalsWellKeyed();
    RankingOfAnyOrder(report.totals, values, metric);
    names := Names(SortByMetric(values, metric));
  }

  /** The states of the day's entity reports, each once, in whatever order the map yields them. */
  method CollectEntityTotals(report: DailyReport) returns (values: seq<EntityTotals>)
    requires report.Valid()
    ensures multiset(values) == multiset(ValuesSeq(report.totals))
  {
    var states := map k | k in report.entityReports :: report.entityReports[k].Totals();
    assert states == report.totals;
    values := ValuesInAnyOrder(states);
  }

  /** The daily report of `date`, created empty and stored on first use. */
  method DailyReportFor(reports: map<Day, DailyReport>, date: Day, ghost days: Days, ghost entities: set<EntityReport>)
    returns (dailyReport: DailyReport, updated: map<Day, DailyReport>)
    requires Distinct(reports) && Separate(reports, entities) && Mirrors(reports, days)
    ensures Distinct(updated) && Separate(updated, entities) && updated == reports[date := dailyReport]
    ensures Mirrors(updated, days[date := DayOrEmpty(days, date)])
    ensures date in reports ==> dailyReport == reports[date]
    ensures date !in reports ==> fresh(dailyReport) && dailyReport.entityReports == map[]
  {
    if date in reports {
      dailyReport := reports[date];
      assert reports[date := dailyReport] == reports;
    } else {
      dailyReport := new DailyReport();
    }
    updated := reports[date := dailyReport];
  }

  /**
   * `addInstruction` on the daily report of `date`, seen from the whole map:
   * that date's totals take the instruction and every other date keeps its own.
   */
  method AddInstructionOn(reports: map<Day, DailyReport>, date: Day, instruction: Instruction,
                          ghost days: Days, ghost entities: set<EntityReport>)
    requires Distinct(reports) && Separate(reports, entities) && Mirrors(reports, days) && date in reports
    modifies reports[date], reports[date].entityReports.Values
    ensures Separate(reports, entities + reports[date].entityReports.Values)
    ensures Mirrors(reports, days[date := AddToDay(days[date], instruction)])
    ensures fresh(reports[date].entityReports.Values - entities)
  {
    var dailyReport := reports[date];
    ghost var mine := dailyReport.entityReports.Values;
    OthersApart(reports, date, entities);
    ghost var before := dailyReport.totals;
    assert before == days[date];
    ghost var after := AddToDay(before, instruction);
    ghost var updated := days[date := after];
    dailyReport.AddInstruction(instruction);
    assert dailyReport.totals == after;
    forall d | d in reports && d != date
      ensures reports[d].Valid() && reports[d].entityReports == old(reports[d].entityReports)
      ensures reports[d].totals == days[d] == updated[d]
    {
      var other := reports[d];
      assert unchanged(other);
      forall e | e in other.entityReports.Values ensures unchanged(e) {
        assert e !in mine;
      }
    }
    assert Mirrors(reports, updated) by {
      forall d | d in reports ensures reports[d].totals == updated[d] {
        if d == date {
          assert reports[d] == dailyReport;
        }
      }
    }
  }

  /** The daily report of `date` shares neither itself nor any entity report with another date. */
  lemma OthersApart(reports: map<Day, DailyReport>, date: Day, entities: set<EntityReport>)
    requires Distinct(reports) && Separate(reports, entities) && date in reports
    ensures forall d :: d in reports && d != date ==>
      reports[d] != reports[date] && reports[d].entityReports.Values !! reports[date].entityReports.Values
  {
    var mine := reports[date].entityReports.Values;
    forall d | d in reports && d != date ensures reports[d].entityReports.Values !! mine {
      var other := reports[d];
      forall e | e in other.entityReports.Values ensures e !in mine {
        assert e.owner == other;
      }
    }
  }

  /**
   * One step of `createReport` once the date is resolved: fetch or create the
   * daily report of `date` and add the instruction to it.
   */
  method AddToDate(reports: map<Day, DailyReport>, date: Day, instruction: Instruction,
                   ghost days: Days, ghost entities: set<EntityReport>)
    returns (updated: map<Day, DailyReport>, ghost grown: set<EntityReport>)
    requires Distinct(reports) && Separate(reports, entities) && Mirrors(reports, days)
    modifies reports.Values, entities
    ensures date in updated && Distinct(updated) && Separate(updated, grown)
    ensures Mirrors(updated, days[date := AddToDay(DayOrEmpty(days, date), instruction)])
    ensures fresh(updated.Values - reports.Values)
    ensures entities <= grown && fresh(grown - entities)
  {
    var dailyReport;
    dailyReport, updated := DailyReportFor(reports, date, days, entities);
    assert fresh(updated.Values - reports.Values) by {
      assert updated.Values - reports.Values <= {dailyReport} - reports.Values;
    }
    label Call:
    AddInstructionOn(updated, date, instruction, days[date := DayOrEmpty(days, date)], entities);
    UpdateTwice(days, date, DayOrEmpty(days, date), AddToDay(DayOrEmpty(days, date), instruction));
    grown := entities + updated[date].entityReports.Values;
    forall e | e in grown - entities ensures fresh(e) {
      assert fresh@Call(e);
    }
  }

  /**
   * `createReport`: resolves each instruction's settlement date, then adds the
   * instruction to that date's daily report, creating the report on first
   * use. The first date that cannot be resolved aborts the whole report.
   */
  method CreateReport(table: RuleTable, instructions: seq<Instruction>) returns (r: Result<SettlementReport, SettlementError>)
    ensures r.Failure? <==> CreateSpec(table, instructions).Failure?
    ensures r.Failure? ==> r.error == CreateSpec(table, instructions).error
    ensures r.Success? ==> fresh(r.value) && r.value.Valid() && r.value.days == CreateSpec(table, instructions).value
  {
    ghost var settle: Settle := t => SettlesOn(table, t);
    var dailyReports: map<Day, DailyReport> := map[];
    ghost var entities: set<EntityReport> := {};
    for i := 0 to |instructions|
      invariant Bucket(instructions[..i], settle).Success?
      invariant Distinct(dailyReports) && Separate(dailyReports, entities)
      invariant fresh(dailyReports.Values) && fresh(entities)
      invariant Mirrors(dailyReports, Bucket(instructions[..i], settle).value)
    {
      var instruction := instructions[i];
      var settlementDate := DateSettled(table, instruction.settlementDate, instruction.currency);
      assert settle(instruction) == settlementDate;
      BucketPrefixStep(instructions, settle, i);
      if settlementDate.Failure? {
        BucketPrefixFailure(instructions, settle, i + 1);
        return Failure(settlementDate.error);
      }
      ghost var previous := Bucket(instructions[..i], settle).value;
      dailyReports, entities := AddToDate(dailyReports, settlementDate.value, instruction, previous, entities);
    }
    assert instructions[..|instructions|] == instructions;
    var report := new SettlementReport(dailyReports, Bucket(instructions, settle).value, entities);
    return Success(report);
  }
}
