/** Metrics of zero nanoseconds: what they leave right in the aggregate, and exactly when they spare its minimum. */
module ZeroDurations {
  import opened Common
  import opened Metrics

  /** Everything in a slot but the minimum. */
  function Rest(v: Metric): Metric {
    v.(min := 0)
  }

  function RestRecorded(v: Metric, d: U64): Metric {
    Rest(Recorded(v, d))
  }

  function RestCombined(t: Metric, v: Metric): Metric {
    Rest(Combined(t, v))
  }

  lemma RestCommutes()
    ensures Commutes(RestRecorded, RestCombined, ZERO, 0)
  {
    assert RestCombined(ZERO, ZERO).buckets == ZERO.buckets;
    forall t: Metric, v: Metric, d: U64
      ensures RestCombined(t, RestRecorded(v, d)) == RestRecorded(RestCombined(t, v), d)
      ensures RestCombined(RestRecorded(t, d), v) == RestRecorded(RestCombined(t, v), d)
    {
      RestCombineThenRecord(t, v, d);
    }
  }

  lemma RestCombineThenRecord(t: Metric, v: Metric, d: U64)
    ensures RestCombined(t, RestRecorded(v, d)) == RestRecorded(RestCombined(t, v), d)
    ensures RestCombined(RestRecorded(t, d), v) == RestRecorded(RestCombined(t, v), d)
  {
    var b := HistBucket(d);
    PlusSwap(t.count, v.count, 1);
    PlusSwap(t.total, v.total, d);
    PlusSwap(t.buckets[b], v.buckets[b], 1);
    assert RestCombined(t, RestRecorded(v, d)).buckets == RestRecorded(RestCombined(t, v), d).buckets;
    assert RestCombined(RestRecorded(t, d), v).buckets == RestRecorded(RestCombined(t, v), d).buckets;
  }

  lemma {:induction false} RestOfSequential(ds: seq<U64>)
    ensures Fold(ds, RestRecorded, ZERO) == Rest(Sequential(ds))
  {
    if ds != [] { RestOfSequential(ds[..|ds| - 1]); }
  }

  lemma {:induction false} RestOfSharded(es: seq<Sample>, cpus: nat)
    ensures ShardedFold(es, cpus, RestRecorded, RestCombined, ZERO) == Rest(Sharded(es, cpus))
  {
    if cpus > 0 {
      RestOfSharded(es, cpus - 1);
      RestOfSequential(OnCpu(es, cpus - 1));
    }
  }

  /** Only the minimum is ever at stake: count, total, maximum and buckets aggregate right for every spread, zeros
      included, and through overflow. */
  lemma OnlyMinimumDiffers(es: seq<Sample>, cpus: nat)
    requires forall e | e in es :: e.cpu < cpus
    ensures Sharded(es, cpus).(min := 0) == Sequential(Durations(es)).(min := 0)
  {
    RestCommutes();
    ShardedIsFold(es, cpus, RestRecorded, RestCombined, ZERO, 0);
    RestOfSharded(es, cpus);
    RestOfSequential(Durations(es));
  }

  /** One more duration in a slot: a minimum of zero stands for none yet. */
  function Lower(m: U64, d: U64): U64 {
    if m == 0 || d < m then d else m
  }

  /** The minimum a slot ends with; a duration of zero makes it forget all others. */
  function Minimum(ds: seq<U64>): U64 {
    if ds == [] then 0 else Lower(Minimum(ds[..|ds| - 1]), ds[|ds| - 1])
  }

  lemma {:induction false} MinimumOfSlot(ds: seq<U64>)
    ensures Sequential(ds).min == Minimum(ds)
  {
    if ds != [] { MinimumOfSlot(ds[..|ds| - 1]); }
  }

  /** The least duration that is not zero, zero if there is none. */
  function LeastNonzero(ds: seq<U64>): U64 {
    if ds == [] then 0
    else
      var before, d := LeastNonzero(ds[..|ds| - 1]), ds[|ds| - 1];
      if d == 0 then before else Lower(before, d)
  }

  lemma {:induction false} LeastNonzeroIsLeast(ds: seq<U64>)
    ensures var m := LeastNonzero(ds);
            && (forall i | 0 <= i < |ds| && ds[i] != 0 :: 0 < m <= ds[i])
            && (m == 0 || exists i | 0 <= i < |ds| :: ds[i] == m)
  {
    if ds != [] {
      var n := |ds| - 1;
      LeastNonzeroIsLeast(ds[..n]);
      var m := LeastNonzero(ds);
      if m != 0 {
        if m == ds[n] {
        } else {
          var i :| 0 <= i < n && ds[..n][i] == m;
          assert ds[i] == m;
        }
      }
      forall i | 0 <= i < |ds| && ds[i] != 0
        ensures 0 < m <= ds[i]
      {
        if i < n { assert ds[..n][i] == ds[i]; }
      }
    }
  }

  lemma Steps(ds: seq<U64>, d: U64)
    ensures Minimum(ds + [d]) == Lower(Minimum(ds), d)
    ensures LeastNonzero(ds + [d]) == if d == 0 then LeastNonzero(ds) else Lower(LeastNonzero(ds), d)
  {
    assert (ds + [d])[..|ds|] == ds;
  }

  lemma StepsOnCpu(es: seq<Sample>, e: Sample, cpu: nat)
    ensures Minimum(OnCpu(es + [e], cpu)) ==
            if e.cpu == cpu then Lower(Minimum(OnCpu(es, cpu)), e.duration) else Minimum(OnCpu(es, cpu))
    ensures LeastNonzero(OnCpu(es + [e], cpu)) ==
            if e.cpu == cpu && e.duration != 0 then Lower(LeastNonzero(OnCpu(es, cpu)), e.duration)
            else LeastNonzero(OnCpu(es, cpu))
  {
    var mine := OnCpu(es, cpu);
    assert (es + [e])[..|es|] == es;
    assert mine + [] == mine;
    Steps(mine, e.duration);
  }

  lemma StepsOfAll(es: seq<Sample>, e: Sample)
    ensures Durations(es + [e]) == Durations(es) + [e.duration]
    ensures Minimum(Durations(es + [e])) == Lower(Minimum(Durations(es)), e.duration)
    ensures LeastNonzero(Durations(es + [e])) ==
            if e.duration == 0 then LeastNonzero(Durations(es)) else Lower(LeastNonzero(Durations(es)), e.duration)
  {
    assert (es + [e])[..|es|] == es;
    Steps(Durations(es), e.duration);
  }

  /** A slot's minimum is zero or a nonzero duration: never less than the least of them. */
  lemma {:induction false} MinimumIsZeroOrMore(ds: seq<U64>)
    ensures Minimum(ds) == 0 || 0 < LeastNonzero(ds) <= Minimum(ds)
  {
    if ds != [] { MinimumIsZeroOrMore(ds[..|ds| - 1]); }
  }

  lemma {:induction false} OnCpuFromAll(es: seq<Sample>, cpu: nat)
    ensures LeastNonzero(OnCpu(es, cpu)) == 0 || 0 < LeastNonzero(Durations(es)) <= LeastNonzero(OnCpu(es, cpu))
  {
    if es != [] {
      var before, e := es[..|es| - 1], es[|es| - 1];
      OnCpuFromAll(before, cpu);
      assert es == before + [e];
      StepsOnCpu(before, e, cpu);
      StepsOfAll(before, e);
    }
  }

  /** If one slot would end with a minimum, some CPU's slot ends with one that is no greater. */
  lemma {:induction false} SomeCpuHasMinimum(es: seq<Sample>, cpus: nat) returns (cpu: nat)
    requires (forall e | e in es :: e.cpu < cpus) && Minimum(Durations(es)) != 0
    ensures cpu < cpus && 0 < Minimum(OnCpu(es, cpu)) <= Minimum(Durations(es))
  {
    var before, e := es[..|es| - 1], es[|es| - 1];
    assert es == before + [e];
    StepsOfAll(before, e);
    if Minimum(Durations(before)) == 0 || e.duration < Minimum(Durations(before)) {
      cpu := e.cpu;
    } else {
      cpu := SomeCpuHasMinimum(before, cpus);
    }
    StepsOnCpu(before, e, cpu);
  }

  lemma AggregateStep(es: seq<Sample>, cpus: nat)
    requires cpus > 0
    ensures var m, last := Sharded(es, cpus - 1).min, Minimum(OnCpu(es, cpus - 1));
            Sharded(es, cpus).min == if last != 0 && (m == 0 || last < m) then last else m
  {
    MinimumOfSlot(OnCpu(es, cpus - 1));
  }

  /** The aggregate's minimum is no greater than any CPU's. */
  lemma {:induction false} AggregateIsLeast(es: seq<Sample>, cpus: nat, cpu: nat)
    requires cpu < cpus && Minimum(OnCpu(es, cpu)) != 0
    ensures 0 < Sharded(es, cpus).min <= Minimum(OnCpu(es, cpu))
  {
    AggregateStep(es, cpus);
    if cpu < cpus - 1 {
      AggregateIsLeast(es, cpus - 1, cpu);
    }
  }

  /** And it is some CPU's. */
  lemma {:induction false} AggregateIsSome(es: seq<Sample>, cpus: nat) returns (cpu: nat)
    requires Sharded(es, cpus).min != 0
    ensures cpu < cpus && Sharded(es, cpus).min == Minimum(OnCpu(es, cpu))
    decreases cpus
  {
    assert cpus > 0;
    AggregateStep(es, cpus);
    if Sharded(es, cpus).min == Sharded(es, cpus - 1).min {
      cpu := AggregateIsSome(es, cpus - 1);
    } else {
      cpu := cpus - 1;
    }
  }

  /** If one slot ends with the least nonzero duration, so does the aggregate of every spread. */
  lemma EverySpreadFindsLeast(es: seq<Sample>, cpus: nat)
    requires forall e | e in es :: e.cpu < cpus
    requires Minimum(Durations(es)) == LeastNonzero(Durations(es))
    ensures Sharded(es, cpus).min == LeastNonzero(Durations(es))
  {
    if Sharded(es, cpus).min != 0 {
      var c := AggregateIsSome(es, cpus);
      MinimumIsZeroOrMore(OnCpu(es, c));
      OnCpuFromAll(es, c);
    }
    if LeastNonzero(Durations(es)) != 0 {
      var c := SomeCpuHasMinimum(es, cpus);
      AggregateIsLeast(es, cpus, c);
    }
  }

  /** The spread that keeps zeros apart from everything else. */
  function Apart(ds: seq<U64>): (es: seq<Sample>)
    ensures forall e | e in es :: e.cpu < 2
  {
    if ds == [] then []
    else
      var d := ds[|ds| - 1];
      Apart(ds[..|ds| - 1]) + [Sample(if d == 0 then 0 else 1, d)]
  }

  lemma ApartStep(ds: seq<U64>, d: U64)
    ensures Apart(ds + [d]) == Apart(ds) + [Sample(if d == 0 then 0 else 1, d)]
  {
    assert (ds + [d])[..|ds|] == ds;
  }

  lemma {:induction false} ApartDurations(ds: seq<U64>)
    ensures Durations(Apart(ds)) == ds
  {
    if ds != [] {
      var before, d := ds[..|ds| - 1], ds[|ds| - 1];
      assert ds == before + [d];
      ApartDurations(before);
      ApartStep(before, d);
      StepsOfAll(Apart(before), Sample(if d == 0 then 0 else 1, d));
    }
  }

  lemma {:induction false} ApartMinima(ds: seq<U64>, cpu: nat)
    ensures Minimum(OnCpu(Apart(ds), cpu)) == if cpu == 1 then LeastNonzero(ds) else 0
  {
    if ds != [] {
      var before, d := ds[..|ds| - 1], ds[|ds| - 1];
      assert ds == before + [d];
      ApartMinima(before, cpu);
      ApartStep(before, d);
      StepsOnCpu(Apart(before), Sample(if d == 0 then 0 else 1, d), cpu);
    }
  }

  lemma ApartFindsLeast(ds: seq<U64>, cpus: nat)
    requires cpus >= 2
    ensures Sharded(Apart(ds), cpus).min == LeastNonzero(ds)
  {
    if Sharded(Apart(ds), cpus).min != 0 {
      var c := AggregateIsSome(Apart(ds), cpus);
      ApartMinima(ds, c);
    }
    ApartMinima(ds, 1);
    if LeastNonzero(ds) != 0 {
      AggregateIsLeast(Apart(ds), cpus, 1);
    }
  }

  /** Every spread of the durations over the CPUs aggregates to what one slot would hold. */
  ghost predicate SpreadsAgree(ds: seq<U64>, cpus: nat) {
    forall es: seq<Sample> | Durations(es) == ds && (forall e | e in es :: e.cpu < cpus) ::
      Sharded(es, cpus) == Sequential(ds)
  }

  lemma SpreadAgrees(es: seq<Sample>, cpus: nat)
    requires forall e | e in es :: e.cpu < cpus
    requires Minimum(Durations(es)) == LeastNonzero(Durations(es))
    ensures Sharded(es, cpus) == Sequential(Durations(es))
  {
    OnlyMinimumDiffers(es, cpus);
    EverySpreadFindsLeast(es, cpus);
    MinimumOfSlot(Durations(es));
    var a, b := Sharded(es, cpus), Sequential(Durations(es));
    assert a == a.(min := 0).(min := a.min) && b == b.(min := 0).(min := b.min);
  }

  /**
   Zeros included, exactly: with two or more CPUs every spread agrees if and only if the minimum of one
   slot is the least nonzero duration.
   */
  lemma SpreadsAgreeIff(ds: seq<U64>, cpus: nat)
    requires cpus >= 2
    ensures SpreadsAgree(ds, cpus) <==> Sequential(ds).min == LeastNonzero(ds)
  {
    MinimumOfSlot(ds);
    if Minimum(ds) == LeastNonzero(ds) {
      forall es: seq<Sample> | Durations(es) == ds && (forall e | e in es :: e.cpu < cpus)
        ensures Sharded(es, cpus) == Sequential(ds)
      {
        SpreadAgrees(es, cpus);
      }
    }
    if SpreadsAgree(ds, cpus) {
      ApartDurations(ds);
      ApartFindsLeast(ds, cpus);
    }
  }

  /** Nothing after position `i` is zero. */
  predicate NoZeroAfter(ds: seq<U64>, i: nat) {
    forall j | i < j < |ds| :: ds[j] != 0
  }

  /** Where the minimum comes from: the durations after the last zero. */
  lemma {:induction false} MinimumAfterZero(ds: seq<U64>)
    ensures Minimum(ds) == 0 || exists i | 0 <= i < |ds| :: ds[i] == Minimum(ds) && NoZeroAfter(ds, i)
  {
    if ds != [] && Minimum(ds) != 0 {
      var n := |ds| - 1;
      var before := ds[..n];
      if Minimum(ds) == ds[n] {
        assert NoZeroAfter(ds, n);
      } else {
        MinimumAfterZero(before);
        var i :| 0 <= i < n && before[i] == Minimum(before) && NoZeroAfter(before, i);
        assert forall j | i < j < n :: ds[j] == before[j];
        assert ds[i] == Minimum(ds) && NoZeroAfter(ds, i);
      }
    }
  }

  lemma {:induction false} MinimumIsBelow(ds: seq<U64>, i: nat)
    requires i < |ds| && ds[i] != 0 && NoZeroAfter(ds, i)
    ensures 0 < Minimum(ds) <= ds[i]
  {
    var n := |ds| - 1;
    if i < n {
      assert forall j | i < j < n :: ds[..n][j] == ds[j];
      MinimumIsBelow(ds[..n], i);
    }
  }

  /** In terms of the samples: the spreads agree if and only if all are zero or a least nonzero one comes after the last
      zero. */
  lemma SpreadsAgreeIffLeastComesLast(ds: seq<U64>, cpus: nat)
    requires cpus >= 2
    ensures SpreadsAgree(ds, cpus) <==>
            LeastNonzero(ds) == 0 || exists i | 0 <= i < |ds| :: ds[i] == LeastNonzero(ds) && NoZeroAfter(ds, i)
  {
    SpreadsAgreeIff(ds, cpus);
    MinimumOfSlot(ds);
    MinimumIsZeroOrMore(ds);
    MinimumAfterZero(ds);
    if LeastNonzero(ds) != 0 && exists i | 0 <= i < |ds| :: ds[i] == LeastNonzero(ds) && NoZeroAfter(ds, i) {
      var i :| 0 <= i < |ds| && ds[i] == LeastNonzero(ds) && NoZeroAfter(ds, i);
      MinimumIsBelow(ds, i);
    }
  }
}
