/** Per-CPU decision metrics (`mcp_record_metric`) and their aggregation (`read_metrics_snapshot`). */
module Metrics {
  import opened Common

  const BUCKETS: nat := 8
  const SLOTS: nat := 256

  datatype MetricValue = Metric(count: U64, total: U64, min: U64, max: U64, buckets: seq<U64>)

  const ZERO_VALUE := MetricValue.Metric(0, 0, 0, 0, [0, 0, 0, 0, 0, 0, 0, 0])

  type Metric = v: MetricValue | |v.buckets| == BUCKETS witness ZERO_VALUE

  const ZERO: Metric := ZERO_VALUE

  /** Addition in 64-bit arithmetic. */
  function Plus(a: U64, b: U64): U64 {
    if a + b > U64_MAX then a + b - U64_MAX - 1 else a + b
  }

  /** `mcp_hist_bucket` */
  function HistBucket(d: U64): (b: nat)
    ensures b < BUCKETS
  {
    if d < 100 then 0 else if d < 500 then 1 else if d < 1000 then 2 else if d < 5000 then 3
    else if d < 10000 then 4 else if d < 50000 then 5 else if d < 100000 then 6 else 7
  }

  /** `mcp_metric_index`: three bit fields side by side. */
  function MetricIndex(hook: U32, layer: U32, action: U32): (i: nat)
    ensures i < SLOTS
  {
    hook % 8 * 32 + layer % 8 * 4 + action % 4
  }

  /** `decode_metric_index` */
  function DecodeIndex(i: nat): (nat, nat, nat) {
    (i / 32 % 8, i / 4 % 8, i % 4)
  }

  /** Hook, layer and action in five, two and no bits above one another. */
  lemma IndexLayout(hook: U32, layer: U32, action: U32)
    ensures MetricIndex(hook, layer, action) / 4 % 8 == layer % 8
    ensures hook < 8 && layer < 8 && action < 4 ==> MetricIndex(hook, layer, action) == 32 * hook + 4 * layer + action
  {
    assert MetricIndex(hook, layer, action) / 4 == hook % 8 * 8 + layer % 8;
  }

  /** Slots never mix: the index gives back hook, layer and action, for every hook, layer and valid action there is. */
  lemma IndexRoundTrip(hook: U32, layer: U32, action: U32)
    requires hook < 8 && layer < 8 && action < 4
    ensures DecodeIndex(MetricIndex(hook, layer, action)) == (hook, layer, action)
  {
    var i := MetricIndex(hook, layer, action);
    assert i / 4 == hook * 8 + layer;
  }

  /** One decision recorded in one slot of one CPU. */
  function Recorded(v: Metric, d: U64): Metric {
    var b := HistBucket(d);
    MetricValue.Metric(Plus(v.count, 1), Plus(v.total, d), if v.min == 0 || d < v.min then d else v.min,
           if d > v.max then d else v.max, v.buckets[b := Plus(v.buckets[b], 1)])
  }

  /** One CPU's slot added to the aggregate. */
  function Combined(t: Metric, v: Metric): Metric {
    MetricValue.Metric(Plus(t.count, v.count), Plus(t.total, v.total),
           if v.min != 0 && (t.min == 0 || v.min < t.min) then v.min else t.min,
           if v.max > t.max then v.max else t.max,
           seq(BUCKETS, b requires 0 <= b < BUCKETS => Plus(t.buckets[b], v.buckets[b])))
  }

  // ---------------------------------------------------------------- sharded is sequential

  datatype Sample = Sample(cpu: nat, duration: U64)

  function OnCpu(es: seq<Sample>, cpu: nat): seq<U64> {
    if es == [] then []
    else OnCpu(es[..|es| - 1], cpu) + (if es[|es| - 1].cpu == cpu then [es[|es| - 1].duration] else [])
  }

  function Durations(es: seq<Sample>): (ds: seq<U64>)
    ensures |ds| == |es|
  {
    if es == [] then [] else Durations(es[..|es| - 1]) + [es[|es| - 1].duration]
  }

  /** Record one after the other. */
  function Fold<T>(ds: seq<U64>, record: (T, U64) -> T, zero: T): T {
    if ds == [] then zero else record(Fold(ds[..|ds| - 1], record, zero), ds[|ds| - 1])
  }

  /** Each CPU records its own samples; the first `cpus` records are combined. */
  function ShardedFold<T>(es: seq<Sample>, cpus: nat, record: (T, U64) -> T, combine: (T, T) -> T, zero: T): T {
    if cpus == 0 then zero
    else combine(ShardedFold(es, cpus - 1, record, combine, zero), Fold(OnCpu(es, cpus - 1), record, zero))
  }

  /** Recording before or after combining makes no difference, for durations of at least `least`. */
  ghost predicate Commutes<T(!new)>(record: (T, U64) -> T, combine: (T, T) -> T, zero: T, least: nat) {
    && combine(zero, zero) == zero
    && (forall t, v, d: U64 | d >= least :: combine(t, record(v, d)) == record(combine(t, v), d))
    && (forall t, v, d: U64 | d >= least :: combine(record(t, d), v) == record(combine(t, v), d))
  }

  lemma OnCpuStep<T>(es: seq<Sample>, e: Sample, cpu: nat, record: (T, U64) -> T, zero: T)
    ensures var mine := Fold(OnCpu(es, cpu), record, zero);
            Fold(OnCpu(es + [e], cpu), record, zero) == if e.cpu == cpu then record(mine, e.duration) else mine
  {
    var mine := OnCpu(es, cpu);
    assert (es + [e])[..|es|] == es;
    assert (mine + [e.duration])[..|mine|] == mine && mine + [] == mine;
  }

  lemma {:induction false} ShardedStep<T(!new)>(es: seq<Sample>, e: Sample, cpus: nat,
                                                record: (T, U64) -> T, combine: (T, T) -> T, zero: T, least: nat)
    requires Commutes(record, combine, zero, least) && e.duration >= least
    ensures var before := ShardedFold(es, cpus, record, combine, zero);
            ShardedFold(es + [e], cpus, record, combine, zero) ==
            if e.cpu < cpus then record(before, e.duration) else before
  {
    if cpus > 0 {
      ShardedStep(es, e, cpus - 1, record, combine, zero, least);
      OnCpuStep(es, e, cpus - 1, record, zero);
      var t, v := ShardedFold(es, cpus - 1, record, combine, zero), Fold(OnCpu(es, cpus - 1), record, zero);
      assert combine(t, record(v, e.duration)) == record(combine(t, v), e.duration);
      assert combine(record(t, e.duration), v) == record(combine(t, v), e.duration);
    }
  }

  lemma {:induction false} NothingRecorded<T(!new)>(cpus: nat, record: (T, U64) -> T, combine: (T, T) -> T, zero: T)
    requires combine(zero, zero) == zero
    ensures ShardedFold([], cpus, record, combine, zero) == zero
  {
    if cpus > 0 {
      NothingRecorded(cpus - 1, record, combine, zero);
    }
  }

  lemma {:induction false} ShardedIsFold<T(!new)>(es: seq<Sample>, cpus: nat, record: (T, U64) -> T,
                                                  combine: (T, T) -> T, zero: T, least: nat)
    requires Commutes(record, combine, zero, least)
    requires forall e | e in es :: e.cpu < cpus && e.duration >= least
    ensures ShardedFold(es, cpus, record, combine, zero) == Fold(Durations(es), record, zero)
  {
    if es == [] {
      NothingRecorded(cpus, record, combine, zero);
    } else {
      var n := |es| - 1;
      ShardedIsFold(es[..n], cpus, record, combine, zero, least);
      ShardedStep(es[..n], es[n], cpus, record, combine, zero, least);
      assert es[..n] + [es[n]] == es;
      assert Durations(es)[..n] == Durations(es[..n]);
    }
  }

  /** All durations recorded one after the other in one slot. */
  function Sequential(ds: seq<U64>): Metric {
    Fold(ds, Recorded, ZERO)
  }

  /** The aggregate of the slots of `cpus` CPUs. */
  function Sharded(es: seq<Sample>, cpus: nat): Metric {
    ShardedFold(es, cpus, Recorded, Combined, ZERO)
  }

  lemma CombineThenRecord(t: Metric, v: Metric, d: U64)
    requires d >= 1
    ensures Combined(t, Recorded(v, d)) == Recorded(Combined(t, v), d)
    ensures Combined(Recorded(t, d), v) == Recorded(Combined(t, v), d)
  {
    var b := HistBucket(d);
    PlusSwap(t.count, v.count, 1);
    PlusSwap(t.total, v.total, d);
    PlusSwap(t.buckets[b], v.buckets[b], 1);
    assert Combined(t, Recorded(v, d)).buckets == Recorded(Combined(t, v), d).buckets;
    assert Combined(Recorded(t, d), v).buckets == Recorded(Combined(t, v), d).buckets;
  }

  lemma PlusSwap(a: U64, b: U64, c: U64)
    ensures Plus(Plus(a, c), b) == Plus(Plus(a, b), c) == Plus(a, Plus(b, c))
  {
  }

  lemma MetricsCommute()
    ensures Commutes(Recorded, Combined, ZERO, 1)
  {
    assert Combined(ZERO, ZERO).buckets == ZERO.buckets;
    forall t: Metric, v: Metric, d: U64 | d >= 1
      ensures Combined(t, Recorded(v, d)) == Recorded(Combined(t, v), d)
      ensures Combined(Recorded(t, d), v) == Recorded(Combined(t, v), d)
    {
      CombineThenRecord(t, v, d);
    }
  }

  /** However the decisions spread over CPUs, the aggregate is what one slot would hold, even through overflow. */
  lemma ShardedIsSequential(es: seq<Sample>, cpus: nat)
    requires forall e | e in es :: e.cpu < cpus && e.duration >= 1
    ensures Sharded(es, cpus) == Sequential(Durations(es))
  {
    MetricsCommute();
    ShardedIsFold(es, cpus, Recorded, Combined, ZERO, 1);
  }

  lemma TwoSamples(x: U64, y: U64)
    ensures var es := [Sample(0, x), Sample(1, y)];
            OnCpu(es, 0) == [x] && OnCpu(es, 1) == [y] && Durations(es) == [x, y]
  {
    var es := [Sample(0, x), Sample(1, y)];
    assert es[..1] == [es[0]] && es[..1][..0] == [];
    assert OnCpu(es[..1], 0) == [x] && OnCpu(es[..1], 1) == [] && Durations(es[..1]) == [x];
  }

  lemma FoldOfTwo<T>(x: U64, y: U64, record: (T, U64) -> T, zero: T)
    ensures Fold([x], record, zero) == record(zero, x)
    ensures Fold([x, y], record, zero) == record(record(zero, x), y)
  {
    assert [x][..0] == [] && [x, y][..1] == [x];
  }

  /** A duration of zero breaks it: zero stands for no minimum yet, and which sample that forgets depends on the CPU. */
  lemma ZeroDurationBreaksSharding()
    ensures var es := [Sample(0, 5), Sample(1, 0)];
            Sharded(es, 2).min == 5 && Sequential(Durations(es)).min == 0
  {
    var es := [Sample(0, 5), Sample(1, 0)];
    TwoSamples(5, 0);
    FoldOfTwo(5, 0, Recorded, ZERO);
    FoldOfTwo(0, 5, Recorded, ZERO);
    assert Sharded(es, 2) == Combined(Combined(Sharded(es, 0), Recorded(ZERO, 5)), Recorded(ZERO, 0));
  }

  // ---------------------------------------------------------------- what a slot says

  function Sum(ds: seq<nat>): nat {
    if ds == [] then 0 else Sum(ds[..|ds| - 1]) + ds[|ds| - 1]
  }

  function InBucket(ds: seq<U64>, b: nat): nat {
    if ds == [] then 0 else InBucket(ds[..|ds| - 1], b) + (if HistBucket(ds[|ds| - 1]) == b then 1 else 0)
  }

  ghost predicate Tallies(v: Metric, ds: seq<U64>) {
    && v.count == |ds| && v.total == Sum(ds)
    && (forall b | 0 <= b < BUCKETS :: v.buckets[b] == InBucket(ds, b))
  }

  ghost predicate Within(ds: seq<U64>, low: nat, high: nat) {
    forall d | d in ds :: low <= d <= high
  }

  ghost predicate Extremes(v: Metric, ds: seq<U64>) {
    && (if ds == [] then v.min == v.max == 0 else v.min in ds && v.max in ds)
    && Within(ds, v.min, v.max)
  }

  /** Without overflow: exact count, sum, extremes and buckets. */
  ghost predicate Describes(v: Metric, ds: seq<U64>) {
    Tallies(v, ds) && Extremes(v, ds)
  }

  lemma {:induction false} SlotDescribesSamples(ds: seq<U64>)
    requires |ds| <= U64_MAX && Sum(ds) <= U64_MAX && 0 !in ds
    ensures Describes(Sequential(ds), ds)
  {
    if ds != [] {
      var n := |ds| - 1;
      SlotDescribesSamples(ds[..n]);
      assert ds == ds[..n] + [ds[n]];
      RecordingTallies(Sequential(ds[..n]), ds[..n], ds[n]);
      RecordingExtremes(Sequential(ds[..n]), ds[..n], ds[n]);
    }
  }

  lemma RecordingTallies(v: Metric, ds: seq<U64>, d: U64)
    requires Tallies(v, ds) && |ds| < U64_MAX && Sum(ds) + d <= U64_MAX
    ensures Tallies(Recorded(v, d), ds + [d])
  {
    assert (ds + [d])[..|ds|] == ds;
    BucketsBounded(ds, HistBucket(d));
  }

  lemma RecordingExtremes(v: Metric, ds: seq<U64>, d: U64)
    requires Extremes(v, ds) && 0 !in ds && d >= 1
    ensures Extremes(Recorded(v, d), ds + [d])
  {
    var all := ds + [d];
    assert d in all && forall x | x in ds :: x in all;
    assert forall x | x in all :: x in ds || x == d;
  }

  /** Count and buckets depend neither on the minimum nor on the total. */
  lemma {:induction false} SlotCounts(ds: seq<U64>)
    requires |ds| <= U64_MAX
    ensures Sequential(ds).count == |ds|
    ensures forall b | 0 <= b < BUCKETS :: Sequential(ds).buckets[b] == InBucket(ds, b)
  {
    if ds != [] {
      var n := |ds| - 1;
      SlotCounts(ds[..n]);
      BucketsBounded(ds[..n], HistBucket(ds[n]));
    }
  }

  /** The buckets of a slot add up to its count, zeros included. */
  lemma {:induction false} BucketsAddUp(ds: seq<U64>)
    requires |ds| <= U64_MAX
    ensures Sum(Sequential(ds).buckets) == Sequential(ds).count
  {
    if ds == [] {
      SumOfZeros(ZERO.buckets);
    } else {
      var n := |ds| - 1;
      BucketsAddUp(ds[..n]);
      SlotCounts(ds[..n]);
      var before, b := Sequential(ds[..n]), HistBucket(ds[n]);
      BucketsBounded(ds[..n], b);
      SumUpdate(before.buckets, b, before.buckets[b] + 1);
    }
  }

  lemma ScaleStep(k: nat, n: nat)
    ensures k * (n + 1) == k * n + k
  {
  }

  lemma {:induction false} SumWithin(ds: seq<U64>, low: nat, high: nat)
    requires Within(ds, low, high)
    ensures low * |ds| <= Sum(ds) <= high * |ds|
  {
    if ds == [] {
    } else {
      var n := |ds| - 1;
      assert ds[n] in ds && forall d | d in ds[..n] :: d in ds;
      SumWithin(ds[..n], low, high);
      ScaleStep(low, n);
      ScaleStep(high, n);
    }
  }

  /** The mean of a slot lies between its extremes. */
  lemma MeanBetweenExtremes(ds: seq<U64>)
    requires |ds| <= U64_MAX && Sum(ds) <= U64_MAX && 0 !in ds
    ensures var v := Sequential(ds);
            v.min * v.count <= v.total <= v.max * v.count
  {
    SlotDescribesSamples(ds);
    SumWithin(ds, Sequential(ds).min, Sequential(ds).max);
  }

  lemma {:induction false} SumOfZeros(s: seq<nat>)
    requires forall i | 0 <= i < |s| :: s[i] == 0
    ensures Sum(s) == 0
  {
    if s != [] { SumOfZeros(s[..|s| - 1]); }
  }

  lemma {:induction false} BucketsBounded(ds: seq<U64>, b: nat)
    ensures InBucket(ds, b) <= |ds|
  {
    if ds != [] { BucketsBounded(ds[..|ds| - 1], b); }
  }

  lemma {:induction false} SumUpdate(s: seq<nat>, i: nat, x: nat)
    requires i < |s|
    ensures Sum(s[i := x]) == Sum(s) - s[i] + x
  {
    var n := |s| - 1;
    if i < n {
      SumUpdate(s[..n], i, x);
      assert s[i := x][..n] == s[..n][i := x];
    } else {
      assert s[i := x][..n] == s[..n];
    }
  }

  // ---------------------------------------------------------------- the map and the reader

  datatype Event = Event(hook: U32, layer: U32, action: U32, sample: Sample)

  function SlotSamples(log: seq<Event>, slot: nat): seq<Sample> {
    if log == [] then []
    else
      var e := log[|log| - 1];
      SlotSamples(log[..|log| - 1], slot) + (if MetricIndex(e.hook, e.layer, e.action) == slot then [e.sample] else [])
  }

  lemma {:induction false} SlotSamplesAreLogged(log: seq<Event>, slot: nat, x: Sample)
    requires x in SlotSamples(log, slot)
    ensures exists e :: e in log && e.sample == x && MetricIndex(e.hook, e.layer, e.action) == slot
  {
    var e := log[|log| - 1];
    if e.sample == x && MetricIndex(e.hook, e.layer, e.action) == slot {
    } else {
      SlotSamplesAreLogged(log[..|log| - 1], slot, x);
      var e' :| e' in log[..|log| - 1] && e'.sample == x && MetricIndex(e'.hook, e'.layer, e'.action) == slot;
      assert e' in log;
    }
  }

  datatype Snapshot = Snapshot(slots: seq<Metric>, total: U64, l1: U64, l2: U64, l3: U64)

  function LayerOf(slot: nat): nat {
    DecodeIndex(slot).1
  }

  /** Counts of the first slots, all layers or one. */
  function CountUp(slots: seq<Metric>, layer: Option<nat>): U64 {
    if slots == [] then 0
    else
      var n := |slots| - 1;
      var rest := CountUp(slots[..n], layer);
      if layer.None? || LayerOf(n) == layer.value then Plus(rest, slots[n].count) else rest
  }

  // ---------------------------------------------------------------- counts are numbers of events

  /** How many events were logged for the layer, taken modulo 8 as the index does; all, if no layer is given. */
  function Logged(log: seq<Event>, layer: Option<nat>): nat {
    if log == [] then 0
    else
      Logged(log[..|log| - 1], layer)
      + (if layer.None? || log[|log| - 1].layer % 8 == layer.value then 1 else 0)
  }

  /** A count in 64-bit arithmetic. */
  function Wrapped(n: nat): U64 {
    n % 0x1_0000_0000_0000_0000
  }

  lemma PlusWraps(a: nat, b: nat)
    ensures Plus(Wrapped(a), Wrapped(b)) == Wrapped(a + b)
  {
  }

  lemma {:induction false} SequentialCount(ds: seq<U64>)
    ensures Sequential(ds).count == Wrapped(|ds|)
  {
    if ds != [] {
      SequentialCount(ds[..|ds| - 1]);
      PlusWraps(|ds| - 1, 1);
    }
  }

  /** How many samples the first CPUs took. */
  function Taken(es: seq<Sample>, cpus: nat): nat {
    if cpus == 0 then 0 else Taken(es, cpus - 1) + |OnCpu(es, cpus - 1)|
  }

  lemma {:induction false} TakenMore(es: seq<Sample>, e: Sample, cpus: nat)
    ensures Taken(es + [e], cpus) == Taken(es, cpus) + (if e.cpu < cpus then 1 else 0)
  {
    if cpus > 0 {
      TakenMore(es, e, cpus - 1);
      assert (es + [e])[..|es|] == es;
    }
  }

  lemma {:induction false} NoneTaken(cpus: nat)
    ensures Taken([], cpus) == 0
  {
    if cpus > 0 { NoneTaken(cpus - 1); }
  }

  lemma {:induction false} AllTaken(es: seq<Sample>, cpus: nat)
    requires forall e | e in es :: e.cpu < cpus
    ensures Taken(es, cpus) == |es|
  {
    if es == [] {
      NoneTaken(cpus);
    } else {
      var n := |es| - 1;
      AllTaken(es[..n], cpus);
      TakenMore(es[..n], es[n], cpus);
      assert es[..n] + [es[n]] == es;
    }
  }

  lemma {:induction false} ShardedCounts(es: seq<Sample>, cpus: nat)
    ensures Sharded(es, cpus).count == Wrapped(Taken(es, cpus))
  {
    if cpus > 0 {
      ShardedCounts(es, cpus - 1);
      SequentialCount(OnCpu(es, cpus - 1));
      PlusWraps(Taken(es, cpus - 1), |OnCpu(es, cpus - 1)|);
    }
  }

  /** How many samples the first slots hold, those of one layer or all. */
  function InSlots(log: seq<Event>, slots: nat, layer: Option<nat>): nat {
    if slots == 0 then 0
    else
      InSlots(log, slots - 1, layer)
      + (if layer.None? || (slots - 1) / 4 % 8 == layer.value then |SlotSamples(log, slots - 1)| else 0)
  }

  lemma {:induction false} InSlotsMore(log: seq<Event>, e: Event, slots: nat, layer: Option<nat>)
    ensures var slot := MetricIndex(e.hook, e.layer, e.action);
            InSlots(log + [e], slots, layer) == InSlots(log, slots, layer)
              + (if slot < slots && (layer.None? || slot / 4 % 8 == layer.value) then 1 else 0)
  {
    if slots > 0 {
      InSlotsMore(log, e, slots - 1, layer);
      assert (log + [e])[..|log|] == log;
    }
  }

  lemma {:induction false} NothingInSlots(slots: nat, layer: Option<nat>)
    ensures InSlots([], slots, layer) == 0
  {
    if slots > 0 { NothingInSlots(slots - 1, layer); }
  }

  lemma {:induction false} InSlotsAreLogged(log: seq<Event>, layer: Option<nat>)
    ensures InSlots(log, SLOTS, layer) == Logged(log, layer)
  {
    if log == [] {
      NothingInSlots(SLOTS, layer);
    } else {
      var n := |log| - 1;
      var e := log[n];
      InSlotsAreLogged(log[..n], layer);
      InSlotsMore(log[..n], e, SLOTS, layer);
      IndexLayout(e.hook, e.layer, e.action);
      assert log[..n] + [e] == log;
    }
  }

  lemma {:induction false} AllLogged(log: seq<Event>)
    ensures Logged(log, None) == |log|
  {
    if log != [] { AllLogged(log[..|log| - 1]); }
  }

  /** One slot more. */
  lemma CountsSlot(log: seq<Event>, slots: seq<Metric>, layer: Option<nat>, n: nat)
    requires n + 1 == |slots| && slots[n].count == Wrapped(|SlotSamples(log, n)|)
    requires CountUp(slots[..n], layer) == Wrapped(InSlots(log, n, layer))
    ensures CountUp(slots, layer) == Wrapped(InSlots(log, n + 1, layer))
  {
    PlusWraps(InSlots(log, n, layer), |SlotSamples(log, n)|);
    if layer.None? || n / 4 % 8 == layer.value {
      assert CountUp(slots, layer) == Plus(CountUp(slots[..n], layer), slots[n].count);
    } else {
      assert CountUp(slots, layer) == CountUp(slots[..n], layer);
    }
  }

  lemma {:induction false} CountsSlots(log: seq<Event>, cpus: nat, slots: seq<Metric>, layer: Option<nat>)
    requires forall e | e in log :: e.sample.cpu < cpus
    requires forall i | 0 <= i < |slots| :: slots[i] == Sharded(SlotSamples(log, i), cpus)
    ensures CountUp(slots, layer) == Wrapped(InSlots(log, |slots|, layer))
  {
    if slots != [] {
      var n := |slots| - 1;
      CountsSlots(log, cpus, slots[..n], layer);
      SlotIsCounted(log, cpus, n);
      CountsSlot(log, slots, layer, n);
    }
  }

  lemma SlotIsCounted(log: seq<Event>, cpus: nat, slot: nat)
    requires forall e | e in log :: e.sample.cpu < cpus
    ensures Sharded(SlotSamples(log, slot), cpus).count == Wrapped(|SlotSamples(log, slot)|)
  {
    var es := SlotSamples(log, slot);
    forall x | x in es
      ensures x.cpu < cpus
    {
      SlotSamplesAreLogged(log, slot, x);
    }
    AllTaken(es, cpus);
    ShardedCounts(es, cpus);
  }

  /** Whatever was logged on whichever CPU, the counts are the numbers of events logged, in 64-bit arithmetic. */
  lemma {:induction false} CountsAreLogged(log: seq<Event>, cpus: nat, slots: seq<Metric>)
    requires forall e | e in log :: e.sample.cpu < cpus
    requires |slots| == SLOTS && forall i | 0 <= i < SLOTS :: slots[i] == Sharded(SlotSamples(log, i), cpus)
    ensures CountUp(slots, None) == Wrapped(|log|)
    ensures forall layer :: CountUp(slots, Some(layer)) == Wrapped(Logged(log, Some(layer)))
  {
    CountsSlots(log, cpus, slots, None);
    InSlotsAreLogged(log, None);
    AllLogged(log);
    forall layer
      ensures CountUp(slots, Some(layer)) == Wrapped(Logged(log, Some(layer)))
    {
      CountsSlots(log, cpus, slots, Some(layer));
      InSlotsAreLogged(log, Some(layer));
    }
  }

  lemma CountUpStep(slots: seq<Metric>, m: Metric, layer: Option<nat>)
    ensures CountUp(slots + [m], layer) ==
            if layer.None? || LayerOf(|slots|) == layer.value then Plus(CountUp(slots, layer), m.count)
            else CountUp(slots, layer)
  {
    assert (slots + [m])[..|slots|] == slots;
  }

  /** The counting part of the loop of `read_metrics_snapshot`. */
  method CountSlot(ghost slots: seq<Metric>, index: nat, sum: Metric, total0: U64, first: U64, second: U64, third: U64)
    returns (total: U64, l1: U64, l2: U64, l3: U64)
    requires index == |slots| && total0 == CountUp(slots, None)
    requires first == CountUp(slots, Some(1)) && second == CountUp(slots, Some(2)) && third == CountUp(slots, Some(3))
    ensures total == CountUp(slots + [sum], None) && l1 == CountUp(slots + [sum], Some(1))
    ensures l2 == CountUp(slots + [sum], Some(2)) && l3 == CountUp(slots + [sum], Some(3))
  {
    CountUpStep(slots, sum, None);
    CountUpStep(slots, sum, Some(1));
    CountUpStep(slots, sum, Some(2));
    CountUpStep(slots, sum, Some(3));
    total, l1, l2, l3 := total0, first, second, third;
    if sum.count != 0 {
      var layer := DecodeIndex(index).1;
      total := Plus(total, sum.count);
      if layer == 1 { l1 := Plus(l1, sum.count); }
      else if layer == 2 { l2 := Plus(l2, sum.count); }
      else if layer == 3 { l3 := Plus(l3, sum.count); }
    }
  }

  class MetricsMap {
    const cpus: nat
    var values: map<(nat, nat), Metric>
    /** Everything recorded so far. */
    ghost var log: seq<Event>

    constructor (cpus: nat)
      ensures Valid() && log == [] && this.cpus == cpus
    {
      this.cpus := cpus;
      values := map[];
      log := [];
    }

    function Value(slot: nat, cpu: nat): Metric
      reads this
    {
      if (slot, cpu) in values then values[(slot, cpu)] else ZERO
    }

    ghost predicate Valid()
      reads this
    {
      && (forall e | e in log :: e.sample.cpu < cpus)
      && forall slot, cpu {:trigger Value(slot, cpu)} ::
           Value(slot, cpu) == Sequential(OnCpu(SlotSamples(log, slot), cpu))
    }

    /** `mcp_record_metric` on the CPU it runs on. */
    method RecordMetric(hook: U32, layer: U32, action: U32, cpu: nat, duration: U64)
      requires Valid() && cpu < cpus
      modifies this
      ensures Valid() && log == old(log) + [Event(hook, layer, action, Sample(cpu, duration))]
    {
      var index := MetricIndex(hook, layer, action);
      var v := Value(index, cpu);
      var b := HistBucket(duration);
      var min, max := v.min, v.max;
      if min == 0 || duration < min { min := duration; }
      if duration > max { max := duration; }
      ghost var e, log0 := Event(hook, layer, action, Sample(cpu, duration)), log;
      var buckets := v.buckets[b := Plus(v.buckets[b], 1)];
      var updated := MetricValue.Metric(Plus(v.count, 1), Plus(v.total, duration), min, max, buckets);
      assert updated == Recorded(v, duration);
      values := values[(index, cpu) := updated];
      log := log + [e];
      forall slot, c
        ensures Value(slot, c) == Sequential(OnCpu(SlotSamples(log, slot), c))
      {
        assert old(Value(slot, c)) == Sequential(OnCpu(SlotSamples(log0, slot), c));
        LogStep(log0, e, slot, c);
      }
    }

    /** The inner loop of `read_metrics_snapshot`. */
    method AddUpSlot(index: nat) returns (sum: Metric)
      requires Valid()
      ensures sum == Sharded(SlotSamples(log, index), cpus)
    {
      sum := ZERO;
      var cpu := 0;
      while cpu < cpus
        invariant 0 <= cpu <= cpus
        invariant sum == Sharded(SlotSamples(log, index), cpu)
      {
        sum := Combined(sum, Value(index, cpu));
        cpu := cpu + 1;
      }
    }

    /** `read_metrics_snapshot`: every slot aggregated over the CPUs, and the decision counts by layer. */
    method ReadSnapshot() returns (s: Snapshot)
      requires Valid()
      ensures |s.slots| == SLOTS
      ensures forall i | 0 <= i < SLOTS :: s.slots[i] == Sharded(SlotSamples(log, i), cpus)
      ensures s.total == Wrapped(|log|)
      ensures s.l1 == Wrapped(Logged(log, Some(1))) && s.l2 == Wrapped(Logged(log, Some(2)))
      ensures s.l3 == Wrapped(Logged(log, Some(3)))
    {
      var slots: seq<Metric> := [];
      var total: U64, l1: U64, l2: U64, l3: U64 := 0, 0, 0, 0;
      var index := 0;
      while index < SLOTS
        invariant 0 <= index <= SLOTS && |slots| == index
        invariant forall i | 0 <= i < index :: slots[i] == Sharded(SlotSamples(log, i), cpus)
        invariant total == CountUp(slots, None)
        invariant l1 == CountUp(slots, Some(1)) && l2 == CountUp(slots, Some(2)) && l3 == CountUp(slots, Some(3))
      {
        var sum := AddUpSlot(index);
        total, l1, l2, l3 := CountSlot(slots, index, sum, total, l1, l2, l3);
        slots := slots + [sum];
        index := index + 1;
      }
      s := Snapshot(slots, total, l1, l2, l3);
      CountsAreLogged(log, cpus, slots);
    }
  }

  lemma LogStep(log: seq<Event>, e: Event, slot: nat, cpu: nat)
    ensures var mine := OnCpu(SlotSamples(log, slot), cpu);
            Sequential(OnCpu(SlotSamples(log + [e], slot), cpu)) ==
            if MetricIndex(e.hook, e.layer, e.action) == slot && e.sample.cpu == cpu
            then Recorded(Sequential(mine), e.sample.duration) else Sequential(mine)
  {
    var samples := SlotSamples(log, slot);
    assert (log + [e])[..|log|] == log;
    assert (samples + [e.sample])[..|samples|] == samples;
    assert samples + [] == samples;
    var mine := OnCpu(samples, cpu);
    assert (mine + [e.sample.duration])[..|mine|] == mine;
    assert mine + [] == mine;
  }

  /** A snapshot's slot is exactly the sequential record of the decisions of its hook, layer and action. */
  lemma SnapshotSlotIsSequential(log: seq<Event>, cpus: nat, slot: nat)
    requires forall e | e in log :: e.sample.cpu < cpus && e.sample.duration >= 1
    ensures Sharded(SlotSamples(log, slot), cpus) == Sequential(Durations(SlotSamples(log, slot)))
  {
    forall x | x in SlotSamples(log, slot)
      ensures x.cpu < cpus && x.duration >= 1
    {
      SlotSamplesAreLogged(log, slot, x);
    }
    ShardedIsSequential(SlotSamples(log, slot), cpus);
  }

  lemma {:induction false} LayersAddUp(log: seq<Event>)
    requires forall e | e in log :: 1 <= e.layer <= 3
    ensures Logged(log, Some(1)) + Logged(log, Some(2)) + Logged(log, Some(3)) == |log|
  {
    if log != [] {
      var e := log[|log| - 1];
      assert e in log;
      LayersAddUp(log[..|log| - 1]);
    }
  }

  /** Every decision is recorded under layer 1, 2 or 3, so the layer counts of a snapshot add up to its total. */
  lemma {:induction false} SnapshotLayersAddUp(log: seq<Event>, cpus: nat, slots: seq<Metric>)
    requires |slots| == SLOTS && forall i | 0 <= i < SLOTS :: slots[i] == Sharded(SlotSamples(log, i), cpus)
    requires forall e | e in log :: e.sample.cpu < cpus && 1 <= e.layer <= 3
    ensures Plus(Plus(CountUp(slots, Some(1)), CountUp(slots, Some(2))), CountUp(slots, Some(3))) ==
            CountUp(slots, None)
  {
    CountsAreLogged(log, cpus, slots);
    LayersAddUp(log);
    var a, b, c := Logged(log, Some(1)), Logged(log, Some(2)), Logged(log, Some(3));
    PlusWraps(a, b);
    PlusWraps(a + b, c);
  }
}
