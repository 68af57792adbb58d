/**
 * `sortEntities`: the entities of a day in ascending order of one metric,
 * equal amounts ordered by the case-sensitive natural order of the names.
 *
 * Java sorts the `entityReports` values in whatever order the map yields them.
 * The ranking is specified here by sorting one particular listing of the
 * values, and `RankingOfAnyOrder` shows that sorting any other listing of the
 * same values gives the same names, so the order in which a map is walked
 * does not matter.
 */
module EntityRanks {
  import opened JavaStrings
  import opened MapSums
  import opened DailyTotals

  /** `comparing(metric).thenComparing(EntityReport::getEntity)` puts `a` strictly before `b`. */
  predicate Precedes(a: EntityTotals, b: EntityTotals, metric: Metric) {
    MetricValue(a, metric) < MetricValue(b, metric)
    || (MetricValue(a, metric) == MetricValue(b, metric) && StrLess(a.entity, b.entity))
  }

  /** No entry comes strictly before an earlier one. */
  predicate Sorted(s: seq<EntityTotals>, metric: Metric) {
    forall i, j :: 0 <= i < j < |s| ==> !Precedes(s[j], s[i], metric)
  }

  lemma PrecedesIrreflexive(a: EntityTotals, metric: Metric)
    ensures !Precedes(a, a, metric)
  {
    StrLessIrreflexive(a.entity);
  }

  lemma PrecedesAsymmetric(a: EntityTotals, b: EntityTotals, metric: Metric)
    ensures !(Precedes(a, b, metric) && Precedes(b, a, metric))
  {
    StrLessAsymmetric(a.entity, b.entity);
  }

  /** Entries with different names are always ordered one way or the other. */
  lemma PrecedesTotal(a: EntityTotals, b: EntityTotals, metric: Metric)
    ensures a.entity == b.entity || Precedes(a, b, metric) || Precedes(b, a, metric)
  {
    StrLessTotal(a.entity, b.entity);
  }

  /** "Not after" is transitive. */
  lemma NotPrecedesTransitive(a: EntityTotals, b: EntityTotals, c: EntityTotals, metric: Metric)
    requires !Precedes(b, a, metric) && !Precedes(c, b, metric)
    ensures !Precedes(c, a, metric)
  {
    StrLessTotal(a.entity, b.entity);
    StrLessTotal(b.entity, c.entity);
    if StrLess(a.entity, b.entity) && StrLess(b.entity, c.entity) {
      StrLessTransitive(a.entity, b.entity, c.entity);
    }
    StrLessAsymmetric(a.entity, c.entity);
    StrLessIrreflexive(a.entity);
  }

  /** `x` inserted into a sorted sequence before the first entry it does not come after. */
  function Insert(x: EntityTotals, s: seq<EntityTotals>, metric: Metric): (r: seq<EntityTotals>)
    requires Sorted(s, metric)
    ensures Sorted(r, metric)
    ensures multiset(r) == multiset(s) + multiset{x}
  {
    if s == [] then [x]
    else if !Precedes(s[0], x, metric) then
      InsertFrontSorted(x, s, metric);
      [x] + s
    else
      var rest := Insert(x, s[1..], metric);
      InsertBehindSorted(x, s, rest, metric);
      [s[0]] + rest
  }

  lemma InsertFrontSorted(x: EntityTotals, s: seq<EntityTotals>, metric: Metric)
    requires Sorted(s, metric) && s != [] && !Precedes(s[0], x, metric)
    ensures Sorted([x] + s, metric)
  {
    var r := [x] + s;
    forall i, j | 0 <= i < j < |r| ensures !Precedes(r[j], r[i], metric) {
      if i == 0 {
        if j > 1 {
          NotPrecedesTransitive(x, s[0], s[j - 1], metric);
        }
      } else {
        assert r[i] == s[i - 1] && r[j] == s[j - 1];
      }
    }
  }

  lemma InsertBehindSorted(x: EntityTotals, s: seq<EntityTotals>, rest: seq<EntityTotals>, metric: Metric)
    requires Sorted(s, metric) && s != [] && Precedes(s[0], x, metric)
    requires Sorted(rest, metric) && multiset(rest) == multiset(s[1..]) + multiset{x}
    ensures Sorted([s[0]] + rest, metric)
    ensures multiset([s[0]] + rest) == multiset(s) + multiset{x}
  {
    var r := [s[0]] + rest;
    forall j | 0 < j < |r| ensures !Precedes(r[j], s[0], metric) {
      assert r[j] in multiset(rest) by { assert r[j] == rest[j - 1]; }
      if r[j] == x {
        PrecedesAsymmetric(s[0], x, metric);
      } else {
        assert r[j] in multiset(s[1..]);
        var k :| 0 <= k < |s[1..]| && s[1..][k] == r[j];
        assert s[k + 1] == r[j];
      }
    }
    assert s == [s[0]] + s[1..];
  }

  /** Insertion sort by the ranking order; it keeps every entry. */
  function SortByMetric(s: seq<EntityTotals>, metric: Metric): (r: seq<EntityTotals>)
    ensures Sorted(r, metric)
    ensures multiset(r) == multiset(s)
    decreases |s|
  {
    if s == [] then []
    else
      var n := |s| - 1;
      assert s == s[..n] + [s[n]];
      Insert(s[n], SortByMetric(s[..n], metric), metric)
  }

  /** `map(EntityReport::getEntity)`. */
  function Names(s: seq<EntityTotals>): (r: seq<string>)
    ensures |r| == |s|
    ensures forall i :: 0 <= i < |s| ==> r[i] == s[i].entity
  {
    seq(|s|, i requires 0 <= i < |s| => s[i].entity)
  }

  /** Entries with the same name are the same entry. */
  ghost predicate NamesDetermine(s: seq<EntityTotals>) {
    forall i, j :: 0 <= i < |s| && 0 <= j < |s| && s[i].entity == s[j].entity ==> s[i] == s[j]
  }

  /** Two sorted listings of the same entries, in which names determine entries, start alike. */
  lemma SortedSameFirst(a: seq<EntityTotals>, b: seq<EntityTotals>, metric: Metric)
    requires Sorted(a, metric) && Sorted(b, metric) && multiset(a) == multiset(b) && NamesDetermine(a)
    requires a != [] && b != []
    ensures a[0] == b[0]
  {
    assert b[0] in multiset(a);
    var i :| 0 <= i < |a| && a[i] == b[0];
    assert a[0] in multiset(b);
    var j :| 0 <= j < |b| && b[j] == a[0];
    PrecedesIrreflexive(a[0], metric);
    PrecedesIrreflexive(b[0], metric);
    assert !Precedes(b[0], a[0], metric);
    assert !Precedes(a[0], b[0], metric);
    PrecedesTotal(a[0], b[0], metric);
  }

  /** Dropping the first entry keeps a listing sorted, and names still determine entries. */
  lemma SortedTail(a: seq<EntityTotals>, metric: Metric)
    requires a != [] && Sorted(a, metric) && NamesDetermine(a)
    ensures Sorted(a[1..], metric) && NamesDetermine(a[1..])
    ensures multiset(a[1..]) == multiset(a) - multiset{a[0]}
  {
    assert a == [a[0]] + a[1..];
  }

  /** Two sorted listings of the same entries, in which names determine entries, are equal. */
  lemma {:induction false} SortedUnique(a: seq<EntityTotals>, b: seq<EntityTotals>, metric: Metric)
    requires Sorted(a, metric) && Sorted(b, metric) && multiset(a) == multiset(b) && NamesDetermine(a)
    ensures a == b
    decreases |a|
  {
    assert |a| == |multiset(a)| == |multiset(b)| == |b|;
    if a != [] {
      SortedUniqueStep(a, b, metric);
      SortedUnique(a[1..], b[1..], metric);
      assert a == [a[0]] + a[1..] && b == [b[0]] + b[1..];
    }
  }

  /** Two sorted listings of the same entries start alike, and what follows is again two such listings. */
  lemma SortedUniqueStep(a: seq<EntityTotals>, b: seq<EntityTotals>, metric: Metric)
    requires Sorted(a, metric) && Sorted(b, metric) && multiset(a) == multiset(b) && NamesDetermine(a)
    requires a != [] && b != []
    ensures a[0] == b[0]
    ensures Sorted(a[1..], metric) && Sorted(b[1..], metric) && multiset(a[1..]) == multiset(b[1..]) && NamesDetermine(a[1..])
  {
    SortedSameFirst(a, b, metric);
    NamesDetermineTransfer(a, b);
    SortedTail(a, metric);
    SortedTail(b, metric);
  }

  /** Names keep determining entries when the same entries are listed in another order. */
  lemma NamesDetermineTransfer(a: seq<EntityTotals>, b: seq<EntityTotals>)
    requires multiset(a) == multiset(b) && NamesDetermine(a)
    ensures NamesDetermine(b)
  {
    forall i, j | 0 <= i < |b| && 0 <= j < |b| && b[i].entity == b[j].entity ensures b[i] == b[j] {
      assert b[i] in multiset(a) && b[j] in multiset(a);
      var p :| 0 <= p < |a| && a[p] == b[i];
      var q :| 0 <= q < |a| && a[q] == b[j];
    }
  }

  /** In a well-keyed day, an entry's name tells under which key it is. */
  lemma ValuesSeqNamesDetermine(d: DayTotals)
    requires WellKeyed(d)
    ensures NamesDetermine(ValuesSeq(d))
    ensures forall i :: 0 <= i < |ValuesSeq(d)| ==> Upper(ValuesSeq(d)[i].entity) in d && ValuesSeq(d)[i] == d[Upper(ValuesSeq(d)[i].entity)]
  {
    var vs := ValuesSeq(d);
    ValuesSeqMembers(d);
    forall i | 0 <= i < |vs| ensures Upper(vs[i].entity) in d && vs[i] == d[Upper(vs[i].entity)] {
      assert vs[i] in d.Values;
      var k :| k in d && d[k] == vs[i];
    }
  }

  /** In a well-keyed day every entry is listed once. */
  lemma {:induction false} ValuesSeqOnce(d: DayTotals)
    requires WellKeyed(d)
    ensures forall x :: multiset(ValuesSeq(d))[x] <= 1
    decreases |d|
  {
    if d != map[] {
      var k := Pick(d.Keys);
      var rest := d - {k};
      ValuesSeqOnce(rest);
      ValuesSeqMembers(rest);
      forall p | 0 <= p < |ValuesSeq(rest)| ensures ValuesSeq(rest)[p] != d[k] {
        var v := ValuesSeq(rest)[p];
        assert v in rest.Values;
        var j :| j in rest && rest[j] == v;
        assert Upper(v.entity) == j;
      }
      assert multiset(ValuesSeq(rest))[d[k]] == 0;
      assert ValuesSeq(d) == [d[k]] + ValuesSeq(rest);
    }
  }

  /** A listing in which nothing occurs twice has no repeated entry. */
  lemma CountOnceDistinct(t: seq<EntityTotals>)
    requires forall x :: multiset(t)[x] <= 1
    ensures forall i, j :: 0 <= i < j < |t| ==> t[i] != t[j]
  {
    forall i, j | 0 <= i < j < |t| ensures t[i] != t[j] {
      assert t == t[..j] + t[j..];
      assert multiset(t) == multiset(t[..j]) + multiset(t[j..]);
      assert t[j] in multiset(t[j..]) by { assert t[j..][0] == t[j]; }
      assert multiset(t)[t[j]] <= 1;
      assert multiset(t)[t[j]] == multiset(t[..j])[t[j]] + multiset(t[j..])[t[j]];
      assert multiset(t[..j])[t[j]] == 0;
      assert t[..j][i] == t[i];
    }
  }

  /** The day's entries in ranking order. */
  ghost function RankedTotals(d: DayTotals, metric: Metric): seq<EntityTotals> {
    SortByMetric(ValuesSeq(d), metric)
  }

  /** `sortIncoming` / `sortOutgoing`: the names of the day's entities in ranking order. */
  ghost function Ranking(d: DayTotals, metric: Metric): seq<string> {
    Names(RankedTotals(d, metric))
  }

  /** Sorting any listing of the day's entries gives the ranking. */
  lemma RankingOfAnyOrder(d: DayTotals, s: seq<EntityTotals>, metric: Metric)
    requires WellKeyed(d) && multiset(s) == multiset(ValuesSeq(d))
    ensures Names(SortByMetric(s, metric)) == Ranking(d, metric)
  {
    ValuesSeqNamesDetermine(d);
    NamesDetermineTransfer(ValuesSeq(d), SortByMetric(s, metric));
    SortedUnique(SortByMetric(s, metric), RankedTotals(d, metric), metric);
  }

  /**
   * The ranking lists every entity of the day exactly once, under the spelling
   * the day keeps, and in strictly ascending order of the metric, names in
   * natural order breaking ties.
   */
  lemma RankingMeaning(d: DayTotals, metric: Metric)
    requires WellKeyed(d)
    ensures |Ranking(d, metric)| == |d|
    ensures forall k :: k in d ==> d[k].entity in Ranking(d, metric)
    ensures forall i :: 0 <= i < |Ranking(d, metric)| ==>
      Upper(Ranking(d, metric)[i]) in d && d[Upper(Ranking(d, metric)[i])].entity == Ranking(d, metric)[i]
    ensures forall i, j :: 0 <= i < j < |Ranking(d, metric)| ==>
      Precedes(d[Upper(Ranking(d, metric)[i])], d[Upper(Ranking(d, metric)[j])], metric)
  {
    var t := RankedTotals(d, metric);
    var r := Ranking(d, metric);
    RankedEntries(d, metric);
    RankedStrictly(d, metric);
    forall k | k in d ensures d[k].entity in r {
      var p :| 0 <= p < |t| && t[p] == d[k];
      assert r[p] == d[k].entity;
    }
  }

  /** The ranked entries are the day's entries, each once, each under the key its name gives. */
  lemma RankedEntries(d: DayTotals, metric: Metric)
    requires WellKeyed(d)
    ensures |RankedTotals(d, metric)| == |d|
    ensures forall i :: 0 <= i < |RankedTotals(d, metric)| ==>
      Upper(RankedTotals(d, metric)[i].entity) in d && RankedTotals(d, metric)[i] == d[Upper(RankedTotals(d, metric)[i].entity)]
    ensures forall k :: k in d ==> d[k] in RankedTotals(d, metric)
  {
    var vs := ValuesSeq(d);
    var t := RankedTotals(d, metric);
    ValuesSeqMembers(d);
    ValuesSeqNamesDetermine(d);
    ValuesSeqOnce(d);
    assert |t| == |multiset(t)| == |multiset(vs)| == |vs|;
    forall i | 0 <= i < |t| ensures Upper(t[i].entity) in d && t[i] == d[Upper(t[i].entity)] {
      assert t[i] in multiset(vs);
      var p :| 0 <= p < |vs| && vs[p] == t[i];
    }
    forall k | k in d ensures d[k] in t {
      assert d[k] in d.Values;
      assert d[k] in multiset(t);
    }
  }

  /** Each ranked entry comes strictly before every later one. */
  lemma RankedStrictly(d: DayTotals, metric: Metric)
    requires WellKeyed(d)
    ensures forall i, j :: 0 <= i < j < |RankedTotals(d, metric)| ==>
      Precedes(RankedTotals(d, metric)[i], RankedTotals(d, metric)[j], metric)
  {
    var t := RankedTotals(d, metric);
    ValuesSeqOnce(d);
    assert multiset(t) == multiset(ValuesSeq(d));
    CountOnceDistinct(t);
    RankedEntries(d, metric);
    forall i, j | 0 <= i < j < |t| ensures Precedes(t[i], t[j], metric) {
      assert !Precedes(t[j], t[i], metric);
      PrecedesTotal(t[i], t[j], metric);
    }
  }
}
