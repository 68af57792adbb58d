/**
 * What a `DailyReport` holds, as a value: for each counterparty entity of one
 * settlement day, the total incoming and outgoing USD amounts.
 *
 * Java keeps the `EntityReport`s in a `TreeMap` whose comparator compares the
 * upper-cased names, so `foo` and `FOO` are one key and the key stored is the
 * spelling seen first. Here the map is keyed by the upper-cased name itself,
 * and each entry keeps the first spelling in its `entity` field; the two maps
 * answer every lookup alike.
 */
module DailyTotals {
  import opened JavaStrings
  import opened MapSums
  import opened Transaction

  /** The state of one `EntityReport`. */
  datatype EntityTotals = EntityTotals(entity: string, incoming: real, outgoing: real)

  /** Which of the two totals a ranking or a sum looks at. */
  datatype Metric = Incoming | Outgoing

  function MetricValue(e: EntityTotals, metric: Metric): real {
    match metric
    case Incoming => e.incoming
    case Outgoing => e.outgoing
  }

  function IncomingOf(e: EntityTotals): real { e.incoming }

  function OutgoingOf(e: EntityTotals): real { e.outgoing }

  /** The `entityReports` of one day, keyed by upper-cased entity name. */
  type DayTotals = map<string, EntityTotals>

  /** Every entry sits under the upper-cased spelling of the name it keeps. */
  predicate WellKeyed(d: DayTotals) {
    forall k :: k in d ==> Upper(d[k].entity) == k
  }

  /** `pricePerUnit × forex × units`, exactly. */
  function InstructionValue(ins: Instruction): real {
    ins.pricePerUnit * ins.forex * (ins.units as real)
  }

  /** The entity totals with the value of `ins` added to the side its direction selects. */
  function Credit(e: EntityTotals, ins: Instruction): EntityTotals {
    match ins.transactionDirection
    case S => e.(incoming := e.incoming + InstructionValue(ins))
    case B => e.(outgoing := e.outgoing + InstructionValue(ins))
  }

  /**
   * `addInstruction`: looks the entity up ignoring case, creates zero totals
   * under the instruction's spelling when it is new, then credits the value.
   * One key at most is added, only the instruction's entity changes, and the
   * spelling already stored is kept.
   */
  function AddToDay(d: DayTotals, ins: Instruction): (r: DayTotals)
    ensures r.Keys == d.Keys + {Upper(ins.entity)}
    ensures forall k :: k in d && k != Upper(ins.entity) ==> r[k] == d[k]
    ensures Upper(ins.entity) in d ==> r[Upper(ins.entity)].entity == d[Upper(ins.entity)].entity
    ensures Upper(ins.entity) !in d ==> r[Upper(ins.entity)].entity == ins.entity
    ensures WellKeyed(d) ==> WellKeyed(r)
  {
    var key := Upper(ins.entity);
    var current := if key in d then d[key] else EntityTotals(ins.entity, 0.0, 0.0);
    d[key := Credit(current, ins)]
  }

  /** The sum of one metric over the day's entities. */
  ghost function Total(d: DayTotals, metric: Metric): real {
    match metric
    case Incoming => SumBy(d, IncomingOf)
    case Outgoing => SumBy(d, OutgoingOf)
  }

  /** What an instruction contributes to a metric: its value on its own side, nothing on the other. */
  function Contribution(ins: Instruction, metric: Metric): real {
    if (metric == Incoming) == (ins.transactionDirection == S) then InstructionValue(ins) else 0.0
  }

  /** Adding an instruction raises the day's total on its side by its value and leaves the other side alone. */
  lemma TotalAfterAdd(d: DayTotals, ins: Instruction, metric: Metric)
    ensures Total(AddToDay(d, ins), metric) == Total(d, metric) + Contribution(ins, metric)
  {
    var key := Upper(ins.entity);
    var current := if key in d then d[key] else EntityTotals(ins.entity, 0.0, 0.0);
    if metric == Incoming {
      SumByUpdate(d, IncomingOf, key, Credit(current, ins));
    } else {
      SumByUpdate(d, OutgoingOf, key, Credit(current, ins));
    }
  }

  /** The day an instruction sequence builds, adding one instruction after another to an empty day. */
  function DayOf(ins: seq<Instruction>): DayTotals
    decreases |ins|
  {
    if ins == [] then map[] else AddToDay(DayOf(ins[..|ins| - 1]), ins[|ins| - 1])
  }

  /** The sum of the values of the instructions for entity key `k` on the side `metric` selects. */
  function EntitySum(ins: seq<Instruction>, k: string, metric: Metric): real
    decreases |ins|
  {
    if ins == [] then 0.0
    else
      var last := ins[|ins| - 1];
      EntitySum(ins[..|ins| - 1], k, metric) + (if Upper(last.entity) == k then Contribution(last, metric) else 0.0)
  }

  /** Instruction `i` is the first one whose entity has key `k`. */
  ghost predicate FirstFor(ins: seq<Instruction>, k: string, i: int) {
    0 <= i < |ins| && Upper(ins[i].entity) == k && forall j :: 0 <= j < i ==> Upper(ins[j].entity) != k
  }

  /** A day built from instructions is well keyed and has one entry per entity named, whatever the case. */
  lemma {:induction false} DayOfKeys(ins: seq<Instruction>)
    ensures WellKeyed(DayOf(ins))
    ensures forall k :: k in DayOf(ins) <==> exists i :: 0 <= i < |ins| && Upper(ins[i].entity) == k
    decreases |ins|
  {
    if ins != [] {
      var n := |ins| - 1;
      var front := ins[..n];
      DayOfKeys(front);
      forall k | k in DayOf(ins) ensures exists i :: 0 <= i < |ins| && Upper(ins[i].entity) == k {
        if k in DayOf(front) {
          var i :| 0 <= i < n && Upper(front[i].entity) == k;
          assert ins[i] == front[i];
        } else {
          assert Upper(ins[n].entity) == k;
        }
      }
      forall k | exists i :: 0 <= i < |ins| && Upper(ins[i].entity) == k ensures k in DayOf(ins) {
        var i :| 0 <= i < |ins| && Upper(ins[i].entity) == k;
        if i < n {
          assert front[i] == ins[i];
        }
      }
    }
  }

  /** Each entry of a built day keeps the spelling of its entity's first instruction. */
  lemma DayOfSpelling(ins: seq<Instruction>, k: string, i: int)
    requires FirstFor(ins, k, i)
    ensures k in DayOf(ins) && DayOf(ins)[k].entity == ins[i].entity
  {
    var front := ins[..i];
    forall j | 0 <= j < i ensures Upper(front[j].entity) != k {
      assert front[j] == ins[j];
    }
    DayOfAbsent(front, k);
    assert ins[..i + 1][..i] == front;
    assert DayOf(ins[..i + 1]) == AddToDay(DayOf(front), ins[i]);
    DayOfKeepsSpelling(ins, k, i + 1);
  }

  /** Once a prefix has an entry for `k`, later instructions never change its spelling. */
  lemma {:induction false} DayOfKeepsSpelling(ins: seq<Instruction>, k: string, m: nat)
    requires m <= |ins| && k in DayOf(ins[..m])
    ensures k in DayOf(ins) && DayOf(ins)[k].entity == DayOf(ins[..m])[k].entity
    decreases |ins| - m
  {
    if m == |ins| {
      assert ins[..m] == ins;
    } else {
      var d := DayOf(ins[..m]);
      assert ins[..m + 1][..m] == ins[..m];
      assert DayOf(ins[..m + 1]) == AddToDay(d, ins[m]);
      DayOfKeepsSpelling(ins, k, m + 1);
    }
  }

  /** An entity that no instruction names has no entry in the built day. */
  lemma {:induction false} DayOfAbsent(ins: seq<Instruction>, k: string)
    requires forall j :: 0 <= j < |ins| ==> Upper(ins[j].entity) != k
    ensures k !in DayOf(ins)
    decreases |ins|
  {
    if ins != [] {
      DayOfAbsent(ins[..|ins| - 1], k);
    }
  }

  /**
   * The totals of each entry of a built day are exactly the sums of its
   * entity's sells (incoming) and buys (outgoing).
   */
  lemma {:induction false} DayOfSums(ins: seq<Instruction>, k: string, metric: Metric)
    requires k in DayOf(ins)
    ensures MetricValue(DayOf(ins)[k], metric) == EntitySum(ins, k, metric)
    decreases |ins|
  {
    var n := |ins| - 1;
    var front := ins[..n];
    var d := DayOf(front);
    assert DayOf(ins) == AddToDay(d, ins[n]);
    if k in d {
      DayOfSums(front, k, metric);
    } else {
      assert forall j :: 0 <= j < |front| ==> Upper(front[j].entity) != k by {
        DayOfKeys(front);
      }
      EntitySumAbsent(front, k, metric);
    }
  }

  /** An entity that no instruction names sums to zero. */
  lemma {:induction false} EntitySumAbsent(ins: seq<Instruction>, k: string, metric: Metric)
    requires forall i :: 0 <= i < |ins| ==> Upper(ins[i].entity) != k
    ensures EntitySum(ins, k, metric) == 0.0
    decreases |ins|
  {
    if ins != [] {
      EntitySumAbsent(ins[..|ins| - 1], k, metric);
    }
  }

  /** The day's total of a metric is the sum of the contributions of all its instructions. */
  function DirectionSum(ins: seq<Instruction>, metric: Metric): real
    decreases |ins|
  {
    if ins == [] then 0.0 else DirectionSum(ins[..|ins| - 1], metric) + Contribution(ins[|ins| - 1], metric)
  }

  /** Conservation within a day: the totals of a built day add up to the values of its instructions. */
  lemma {:induction false} DayTotalConserved(ins: seq<Instruction>, metric: Metric)
    ensures Total(DayOf(ins), metric) == DirectionSum(ins, metric)
    decreases |ins|
  {
    if ins != [] {
      DayTotalConserved(ins[..|ins| - 1], metric);
      TotalAfterAdd(DayOf(ins[..|ins| - 1]), ins[|ins| - 1], metric);
    }
  }
}
