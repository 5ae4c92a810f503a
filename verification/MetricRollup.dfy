/** Five-minute rollups of raw metrics, and what a row covers when cutoffs fall inside its bucket. */
module MetricRollup {
  import opened Sums

  const BUCKET: nat := 300

  datatype Sample = Sample(
    cpu: real, memory: real, swap: real, load: real, rx: real, tx: real,
    disk: real, processes: real, containers: real)

  datatype Rollup = Rollup(
    cpuMin: real, cpuAvg: real, cpuMax: real, memoryMin: real, memoryAvg: real, memoryMax: real,
    swapAvg: real, loadAvg: real, rxAvg: real, txAvg: real, diskMax: real,
    processesAvg: real, containersAvg: real)

  /** Raw samples by their second. */
  type Samples = map<nat, Sample>

  /** The last three fields are bookkeeping: all samples, the deleted seconds, what each row was made of. */
  datatype State = State(
    metrics: Samples, rollups: map<nat, Rollup>,
    ever: Samples, deleted: set<nat>, source: map<nat, Samples>)

  datatype Event =
    | Store(ts: nat, sample: Sample)
    | Pass(cutoff: nat, keepFrom: nat, deletesRaw: bool, deletesOld: bool)

  function BucketOf(ts: nat): nat {
    ts / BUCKET * BUCKET
  }

  /** The samples of one bucket below a cutoff. */
  function Taken(m: Samples, cutoff: nat, bucket: nat): Samples {
    map ts | ts in m && ts < cutoff && BucketOf(ts) == bucket :: m[ts]
  }

  function InBucket(m: Samples, bucket: nat): Samples {
    map ts | ts in m && BucketOf(ts) == bucket :: m[ts]
  }

  function TakenBuckets(m: Samples, cutoff: nat): set<nat> {
    set ts | ts in m && ts < cutoff :: BucketOf(ts)
  }

  datatype Column = Cpu | Memory | Swap | Load | Rx | Tx | Disk | Processes | Containers

  function Get(s: Sample, c: Column): real {
    match c
    case Cpu => s.cpu
    case Memory => s.memory
    case Swap => s.swap
    case Load => s.load
    case Rx => s.rx
    case Tx => s.tx
    case Disk => s.disk
    case Processes => s.processes
    case Containers => s.containers
  }

  ghost function Values(m: Samples, c: Column): (v: map<nat, real>)
    ensures v.Keys == m.Keys
  {
    map ts | ts in m :: Get(m[ts], c)
  }

  /** MIN, AVG and MAX of the columns over one group of rows. */
  ghost function Summary(m: Samples): Rollup
    requires m != map[]
  {
    assert forall c :: Values(m, c).Keys == m.Keys;
    Rollup(Min(Values(m, Cpu)), Mean(Values(m, Cpu)), Max(Values(m, Cpu)),
           Min(Values(m, Memory)), Mean(Values(m, Memory)), Max(Values(m, Memory)),
           Mean(Values(m, Swap)), Mean(Values(m, Load)), Mean(Values(m, Rx)), Mean(Values(m, Tx)),
           Max(Values(m, Disk)), Mean(Values(m, Processes)), Mean(Values(m, Containers)))
  }

  lemma TakenNotEmpty(m: Samples, cutoff: nat, bucket: nat)
    requires bucket in TakenBuckets(m, cutoff)
    ensures Taken(m, cutoff, bucket) != map[]
  {
    var ts :| ts in m && ts < cutoff && BucketOf(ts) == bucket;
    assert ts in Taken(m, cutoff, bucket);
  }

  /** What each bucket with a sample below the cutoff is made of. */
  ghost function TakenBy(m: Samples, cutoff: nat): (from: map<nat, Samples>)
    ensures forall b :: b in from ==> from[b] != map[]
  {
    forall b | b in TakenBuckets(m, cutoff) ensures Taken(m, cutoff, b) != map[] { TakenNotEmpty(m, cutoff, b); }
    map b | b in TakenBuckets(m, cutoff) :: Taken(m, cutoff, b)
  }

  ghost function Summaries(from: map<nat, Samples>): map<nat, Rollup>
    requires forall b :: b in from ==> from[b] != map[]
  {
    map b | b in from :: Summary(from[b])
  }

  /** INSERT OR REPLACE of every bucket with a sample below the cutoff, then the two deletes. */
  ghost function RollupPass(s: State, cutoff: nat, keepFrom: nat, deletesRaw: bool, deletesOld: bool): State {
    var from := TakenBy(s.metrics, cutoff);
    var rows := s.rollups + Summaries(from);
    State(if deletesRaw then (map ts | ts in s.metrics && ts >= cutoff :: s.metrics[ts]) else s.metrics,
          if deletesOld then (map b | b in rows && b >= keepFrom :: rows[b]) else rows,
          s.ever,
          if deletesRaw then s.deleted + (set ts | ts in s.metrics && ts < cutoff) else s.deleted,
          s.source + from)
  }

  ghost function Next(s: State, ev: Event): State {
    match ev
    case Store(ts, sample) => s.(metrics := s.metrics[ts := sample], ever := s.ever[ts := sample])
    case Pass(cutoff, keepFrom, deletesRaw, deletesOld) => RollupPass(s, cutoff, keepFrom, deletesRaw, deletesOld)
  }

  ghost function Run(es: seq<Event>): State {
    if es == [] then State(map[], map[], map[], {}, map[]) else Next(Run(es[..|es| - 1]), es[|es| - 1])
  }

  // ---- what every row is ----

  ghost predicate RowSound(s: State, b: nat) {
    && b in s.source && s.source[b] != map[]
    && (forall ts :: ts in s.source[b] ==> BucketOf(ts) == b)
    && (b in s.rollups ==> s.rollups[b] == Summary(s.source[b]))
  }

  ghost predicate RowsSound(s: State) {
    forall b :: b in s.rollups ==> RowSound(s, b)
  }

  lemma PassTakesFrom(s: State, ev: Event, b: nat)
    requires ev.Pass?
    ensures b in TakenBuckets(s.metrics, ev.cutoff) <==> b in TakenBy(s.metrics, ev.cutoff)
    ensures b in TakenBuckets(s.metrics, ev.cutoff) ==>
              TakenBy(s.metrics, ev.cutoff)[b] == Taken(s.metrics, ev.cutoff, b)
  {
  }

  lemma PassAtTaken(s: State, ev: Event, b: nat)
    requires ev.Pass? && b in TakenBy(s.metrics, ev.cutoff)
    ensures b in Next(s, ev).source && Next(s, ev).source[b] == TakenBy(s.metrics, ev.cutoff)[b]
    ensures b in Next(s, ev).rollups ==>
              Next(s, ev).rollups[b] == Summary(TakenBy(s.metrics, ev.cutoff)[b])
  {
    var from := TakenBy(s.metrics, ev.cutoff);
    var made := Summaries(from);
    assert b in made && made[b] == Summary(from[b]);
  }

  lemma PassAtOther(s: State, ev: Event, b: nat)
    requires ev.Pass? && b !in TakenBy(s.metrics, ev.cutoff)
    ensures b in Next(s, ev).source <==> b in s.source
    ensures b in s.source ==> Next(s, ev).source[b] == s.source[b]
    ensures b in Next(s, ev).rollups ==> b in s.rollups && Next(s, ev).rollups[b] == s.rollups[b]
  {
  }

  lemma PassKeepsRows(s: State, ev: Event)
    requires RowsSound(s) && ev.Pass?
    ensures RowsSound(Next(s, ev))
  {
    var s' := Next(s, ev);
    forall b | b in s'.rollups ensures RowSound(s', b) {
      if b in TakenBy(s.metrics, ev.cutoff) {
        PassTakesFrom(s, ev, b);
        PassAtTaken(s, ev, b);
      } else {
        PassAtOther(s, ev, b);
        assert RowSound(s, b);
      }
    }
  }

  lemma {:induction false} RunRowsSound(es: seq<Event>)
    ensures RowsSound(Run(es))
  {
    if es != [] {
      var s, ev := Run(es[..|es| - 1]), es[|es| - 1];
      RunRowsSound(es[..|es| - 1]);
      if ev.Pass? {
        PassKeepsRows(s, ev);
      } else {
        forall b | b in Run(es).rollups ensures RowSound(Run(es), b) {
          assert RowSound(s, b);
        }
      }
    }
  }

  /** `lo` and `hi` are values of the column in `m`, and bound them all. */
  ghost predicate Spans(m: Samples, c: Column, lo: real, hi: real) {
    && (forall ts :: ts in m ==> lo <= Get(m[ts], c) <= hi)
    && (exists ts :: ts in m && Get(m[ts], c) == lo)
    && (exists ts :: ts in m && Get(m[ts], c) == hi)
  }

  /** `avg` times the number of samples is the column's total. */
  ghost predicate Averages(m: Samples, c: Column, avg: real) {
    avg * |m.Keys| as real == SumR(Values(m, c))
  }

  ghost predicate AllAverages(m: Samples, row: Rollup) {
    && Averages(m, Cpu, row.cpuAvg) && Averages(m, Memory, row.memoryAvg)
    && Averages(m, Swap, row.swapAvg) && Averages(m, Load, row.loadAvg)
    && Averages(m, Rx, row.rxAvg) && Averages(m, Tx, row.txAvg)
    && Averages(m, Processes, row.processesAvg) && Averages(m, Containers, row.containersAvg)
  }

  /**
   * In every reachable state each rollup row summarises exactly the samples that the last pass over
   * its bucket took: the extremes are attained by such samples and bound them all, and every
   * average is the exact mean of its column.
   */
  lemma RowSummarisesItsSource(es: seq<Event>, b: nat)
    requires b in Run(es).rollups
    ensures b in Run(es).source && Run(es).source[b] != map[]
    ensures Spans(Run(es).source[b], Cpu, Run(es).rollups[b].cpuMin, Run(es).rollups[b].cpuMax)
    ensures Spans(Run(es).source[b], Memory, Run(es).rollups[b].memoryMin, Run(es).rollups[b].memoryMax)
    ensures exists lo :: Spans(Run(es).source[b], Disk, lo, Run(es).rollups[b].diskMax)
    ensures AllAverages(Run(es).source[b], Run(es).rollups[b])
  {
    RunRowsSound(es);
    assert RowSound(Run(es), b);
    SummarySpans(Run(es).source[b]);
    SummaryAverages(Run(es).source[b]);
  }

  lemma SummarySpans(m: Samples)
    requires m != map[]
    ensures Spans(m, Cpu, Summary(m).cpuMin, Summary(m).cpuMax)
    ensures Spans(m, Memory, Summary(m).memoryMin, Summary(m).memoryMax)
    ensures exists lo :: Spans(m, Disk, lo, Summary(m).diskMax)
  {
    Extremes(m, Cpu);
    Extremes(m, Memory);
    Extremes(m, Disk);
  }

  lemma SummaryAverages(m: Samples)
    requires m != map[]
    ensures AllAverages(m, Summary(m))
  {
    forall c ensures Values(m, c) != map[] && Averages(m, c, Mean(Values(m, c))) {
      MeanAverages(m, c);
    }
  }

  lemma MeanAverages(m: Samples, c: Column)
    requires m != map[]
    ensures Values(m, c) != map[] && Averages(m, c, Mean(Values(m, c)))
  {
    assert Values(m, c).Keys == m.Keys;
  }

  lemma Extremes(m: Samples, c: Column)
    requires m != map[]
    ensures Values(m, c) != map[] && Spans(m, c, Min(Values(m, c)), Max(Values(m, c)))
  {
    var v := Values(m, c);
    assert v.Keys == m.Keys;
    MinIsLeast(v);
    MaxIsGreatest(v);
    var lo :| lo in v && v[lo] == Min(v);
    var hi :| hi in v && v[hi] == Max(v);
    assert lo in m && hi in m;
    forall ts | ts in m ensures Min(v) <= Get(m[ts], c) <= Max(v) {
      assert v[ts] == Get(m[ts], c);
    }
  }

  lemma MeanBetween(m: Samples, c: Column)
    requires m != map[]
    ensures Values(m, c) != map[] && Min(Values(m, c)) <= Mean(Values(m, c)) <= Max(Values(m, c))
  {
    var v := Values(m, c);
    assert v.Keys == m.Keys;
    MinIsLeast(v);
    MaxIsGreatest(v);
    MeanAtLeast(v, Min(v));
    MeanAtMost(v, Max(v));
  }

  /** And its minima, averages and maxima are in order. */
  lemma RowsAreOrdered(es: seq<Event>, b: nat)
    requires b in Run(es).rollups
    ensures var row := Run(es).rollups[b];
            row.cpuMin <= row.cpuAvg <= row.cpuMax && row.memoryMin <= row.memoryAvg <= row.memoryMax
  {
    RunRowsSound(es);
    assert RowSound(Run(es), b);
    MeanBetween(Run(es).source[b], Cpu);
    MeanBetween(Run(es).source[b], Memory);
  }

  /**
   * A pass whose deletes succeed leaves exactly the raw samples at or above its cutoff, unchanged, and
   * no row below its own.
   */
  lemma PassClearsBelowCutoff(s: State, ev: Event)
    requires ev.Pass? && ev.deletesRaw && ev.deletesOld
    ensures forall ts :: ts in Next(s, ev).metrics <==> ts in s.metrics && ts >= ev.cutoff
    ensures forall ts :: ts in Next(s, ev).metrics ==> Next(s, ev).metrics[ts] == s.metrics[ts]
    ensures forall b :: b in Next(s, ev).rollups <==>
              b >= ev.keepFrom && (b in s.rollups || b in TakenBuckets(s.metrics, ev.cutoff))
    ensures Next(s, ev).ever == s.ever
  {
  }

  // ---- when a row covers everything ever stored in its bucket ----

  /** No sample arrives below the cutoff of an earlier pass. */
  predicate InOrder(es: seq<Event>) {
    forall i, j :: 0 <= i < j < |es| && es[i].Pass? && es[j].Store? ==> es[i].cutoff <= es[j].ts
  }

  ghost predicate Tracked(s: State) {
    && (forall ts :: ts in s.ever <==> ts in s.metrics || ts in s.deleted)
    && (forall ts :: ts in s.metrics ==> ts !in s.deleted && s.metrics[ts] == s.ever[ts])
  }

  predicate DeletedBelow(s: State, es: seq<Event>) {
    forall ts :: ts in s.deleted ==> exists i :: 0 <= i < |es| && es[i].Pass? && ts < es[i].cutoff
  }

  lemma {:induction false} RunTracked(es: seq<Event>)
    requires InOrder(es)
    ensures Tracked(Run(es)) && DeletedBelow(Run(es), es)
  {
    if es != [] {
      var n := |es| - 1;
      var s, s', before := Run(es[..n]), Run(es), es[..n];
      RunTracked(before);
      forall ts | ts in s'.deleted ensures exists i :: 0 <= i < |es| && es[i].Pass? && ts < es[i].cutoff {
        if ts in s.deleted {
          var i :| 0 <= i < |before| && before[i].Pass? && ts < before[i].cutoff;
          assert es[i] == before[i];
        } else {
          assert es[n].Pass? && ts < es[n].cutoff;
        }
      }
      if es[n].Store? {
        assert forall i :: 0 <= i < |before| ==> before[i] == es[i];
        assert es[n].ts !in s.deleted;
      }
    }
  }

  ghost predicate NothingDeleted(s: State, b: nat) {
    forall ts :: ts in s.deleted ==> BucketOf(ts) != b
  }

  ghost predicate NothingAbove(s: State, cutoff: nat, b: nat) {
    forall ts :: ts in s.metrics && BucketOf(ts) == b ==> ts < cutoff
  }

  lemma TakenWholeIff(s: State, cutoff: nat, b: nat)
    requires Tracked(s)
    ensures Taken(s.metrics, cutoff, b) == InBucket(s.ever, b) <==> NothingDeleted(s, b) && NothingAbove(s, cutoff, b)
  {
    var taken, all := Taken(s.metrics, cutoff, b), InBucket(s.ever, b);
    if NothingDeleted(s, b) && NothingAbove(s, cutoff, b) {
      assert taken == all;
    } else if !NothingDeleted(s, b) {
      var ts :| ts in s.deleted && BucketOf(ts) == b;
      assert ts in all && ts !in taken;
    } else {
      var ts :| ts in s.metrics && BucketOf(ts) == b && ts >= cutoff;
      assert ts in all && ts !in taken;
    }
  }

  /**
   * A pass makes the row of a bucket cover every sample ever stored in it if and only if no earlier
   * pass has deleted samples of that bucket and none of its samples is at or above the cutoff.
   */
  lemma RowCompleteIff(es: seq<Event>, ev: Event, b: nat)
    requires InOrder(es) && ev.Pass? && b in TakenBuckets(Run(es).metrics, ev.cutoff)
    ensures b in Next(Run(es), ev).source
    ensures Next(Run(es), ev).source[b] == InBucket(Run(es).ever, b) <==>
              NothingDeleted(Run(es), b) && NothingAbove(Run(es), ev.cutoff, b)
  {
    RunTracked(es);
    PassTakesFrom(Run(es), ev, b);
    PassAtTaken(Run(es), ev, b);
    TakenWholeIff(Run(es), ev.cutoff, b);
  }

  predicate Aligned(es: seq<Event>) {
    forall ev :: ev in es ==> (ev.Pass? ==> ev.cutoff % BUCKET == 0)
  }

  /** A cutoff on a bucket boundary never separates two samples of a bucket. */
  lemma AlignedNeverSplits(a: nat, b: nat, cutoff: nat)
    requires BucketOf(a) == BucketOf(b) && cutoff % BUCKET == 0 && a < cutoff
    ensures b < cutoff
  {
    assert cutoff == cutoff / BUCKET * BUCKET;
    assert a / BUCKET < cutoff / BUCKET;
  }

  /** Every taken sample lies below the cutoff of some pass. */
  predicate SourceBelow(s: State, es: seq<Event>) {
    forall b, ts :: b in s.source && ts in s.source[b] ==>
      exists i :: 0 <= i < |es| && es[i].Pass? && ts < es[i].cutoff
  }

  /** Every raw sample left is at or above the cutoff of every pass that deleted. */
  predicate MetricsAbove(s: State, es: seq<Event>) {
    forall ts, i :: ts in s.metrics && 0 <= i < |es| && es[i].Pass? && es[i].deletesRaw ==> es[i].cutoff <= ts
  }

  predicate DeletedByDeleting(s: State, es: seq<Event>) {
    forall ts :: ts in s.deleted ==>
      exists i :: 0 <= i < |es| && es[i].Pass? && es[i].deletesRaw && ts < es[i].cutoff
  }

  lemma {:induction false} RunBounds(es: seq<Event>)
    requires InOrder(es)
    ensures SourceBelow(Run(es), es) && MetricsAbove(Run(es), es) && DeletedByDeleting(Run(es), es)
  {
    if es != [] {
      var n := |es| - 1;
      var s, s', before := Run(es[..n]), Run(es), es[..n];
      RunBounds(before);
      forall b, ts | b in s'.source && ts in s'.source[b]
        ensures exists i :: 0 <= i < |es| && es[i].Pass? && ts < es[i].cutoff
      {
        if b in s.source && ts in s.source[b] {
          var i :| 0 <= i < |before| && before[i].Pass? && ts < before[i].cutoff;
          assert es[i] == before[i];
        } else {
          assert es[n].Pass? && ts < es[n].cutoff;
        }
      }
      forall ts, i | ts in s'.metrics && 0 <= i < |es| && es[i].Pass? && es[i].deletesRaw
        ensures es[i].cutoff <= ts
      {
        if i < n {
          assert before[i] == es[i];
        }
      }
      forall ts | ts in s'.deleted
        ensures exists i :: 0 <= i < |es| && es[i].Pass? && es[i].deletesRaw && ts < es[i].cutoff
      {
        if ts in s.deleted {
          var i :| 0 <= i < |before| && before[i].Pass? && before[i].deletesRaw && ts < before[i].cutoff;
          assert es[i] == before[i];
        } else {
          assert es[n].Pass? && es[n].deletesRaw && ts < es[n].cutoff;
        }
      }
    }
  }

  ghost predicate Whole(s: State) {
    forall b :: b in s.rollups ==> b in s.source && s.source[b] == InBucket(s.ever, b)
  }

  /** No sample arrives for a bucket that already has a row. */
  lemma StoreOutsideRows(es: seq<Event>, ev: Event, b: nat)
    requires ev.Store? && InOrder(es + [ev]) && InOrder(es) && Aligned(es) && b in Run(es).rollups
    ensures BucketOf(ev.ts) != b
  {
    RunRowsSound(es);
    RunBounds(es);
    assert RowSound(Run(es), b);
    var ts :| ts in Run(es).source[b];
    var i :| 0 <= i < |es| && es[i].Pass? && ts < es[i].cutoff;
    var all := es + [ev];
    assert all[i] == es[i] && all[|es|] == ev && es[i] in es;
    if BucketOf(ev.ts) == b {
      AlignedNeverSplits(ts, ev.ts, es[i].cutoff);
    }
  }

  lemma OtherBucketSame(ever: Samples, ts: nat, sample: Sample, b: nat)
    requires BucketOf(ts) != b
    ensures InBucket(ever[ts := sample], b) == InBucket(ever, b)
  {
  }

  lemma StoreKeepsWhole(es: seq<Event>, ev: Event)
    requires ev.Store? && InOrder(es + [ev]) && InOrder(es) && Aligned(es) && Whole(Run(es))
    ensures Whole(Next(Run(es), ev))
  {
    var s, s' := Run(es), Next(Run(es), ev);
    forall b | b in s'.rollups ensures b in s'.source && s'.source[b] == InBucket(s'.ever, b) {
      StoreOutsideRows(es, ev, b);
      OtherBucketSame(s.ever, ev.ts, ev.sample, b);
    }
  }

  lemma PassTakesWhole(es: seq<Event>, ev: Event, b: nat)
    requires ev.Pass? && ev.cutoff % BUCKET == 0 && InOrder(es) && Aligned(es)
    requires b in TakenBuckets(Run(es).metrics, ev.cutoff)
    ensures b in Next(Run(es), ev).source && Next(Run(es), ev).source[b] == InBucket(Run(es).ever, b)
  {
    RunBounds(es);
    var s := Run(es);
    var x :| x in s.metrics && x < ev.cutoff && BucketOf(x) == b;
    forall ts | ts in s.deleted ensures BucketOf(ts) != b {
      var i :| 0 <= i < |es| && es[i].Pass? && es[i].deletesRaw && ts < es[i].cutoff;
      assert es[i] in es;
      if BucketOf(ts) == b {
        AlignedNeverSplits(ts, x, es[i].cutoff);
      }
    }
    forall ts | ts in s.metrics && BucketOf(ts) == b ensures ts < ev.cutoff {
      AlignedNeverSplits(x, ts, ev.cutoff);
    }
    RowCompleteIff(es, ev, b);
  }

  lemma PassKeepsWhole(es: seq<Event>, ev: Event)
    requires ev.Pass? && ev.cutoff % BUCKET == 0 && InOrder(es) && Aligned(es) && Whole(Run(es))
    ensures Whole(Next(Run(es), ev))
  {
    var s, s' := Run(es), Next(Run(es), ev);
    forall b | b in s'.rollups ensures b in s'.source && s'.source[b] == InBucket(s'.ever, b) {
      PassTakesFrom(s, ev, b);
      if b in TakenBuckets(s.metrics, ev.cutoff) {
        PassTakesWhole(es, ev, b);
      } else {
        PassAtOther(s, ev, b);
      }
    }
  }

  /**
   * If every cutoff is a multiple of 300 and no sample arrives below an earlier cutoff, every rollup
   * row summarises every sample ever stored in its bucket, whichever deletes fail.
   */
  lemma {:induction false} AlignedRowsAreWhole(es: seq<Event>)
    requires InOrder(es) && Aligned(es)
    ensures Whole(Run(es))
  {
    if es != [] {
      var n := |es| - 1;
      assert es == es[..n] + [es[n]];
      AlignedRowsAreWhole(es[..n]);
      if es[n].Store? {
        StoreKeepsWhole(es[..n], es[n]);
      } else {
        assert es[n] in es;
        PassKeepsWhole(es[..n], es[n]);
      }
    }
  }

  lemma Unroll(es: seq<Event>, ev: Event)
    ensures Run(es + [ev]) == Next(Run(es), ev)
  {
    assert (es + [ev])[..|es|] == es;
  }

  lemma LateHalfOverwrites(s: State, ev: Event, early: nat, late: nat)
    requires ev.Pass? && ev.deletesRaw && ev.deletesOld && ev.keepFrom == 0
    requires early !in s.metrics && early in s.ever && late in s.metrics && late < ev.cutoff
    requires BucketOf(early) == BucketOf(late)
    ensures !Whole(Next(s, ev))
  {
    var b := BucketOf(late);
    assert b in TakenBuckets(s.metrics, ev.cutoff);
    PassTakesFrom(s, ev, b);
    PassAtTaken(s, ev, b);
    PassClearsBelowCutoff(s, ev);
    assert early !in Taken(s.metrics, ev.cutoff, b) && early in InBucket(s.ever, b);
  }

  /**
   * Without alignment it fails, from every state: a cutoff between two samples of a bucket and then a
   * pass that reaches the later one leave a row that has forgotten the earlier one.
   */
  lemma SplitBucketForgets(es: seq<Event>, cut: Event, last: Event, early: nat, late: nat)
    requires InOrder(es) && early in Run(es).metrics && late in Run(es).metrics
    requires BucketOf(early) == BucketOf(late)
    requires cut.Pass? && cut.deletesRaw && cut.deletesOld && early < cut.cutoff <= late
    requires last.Pass? && last.deletesRaw && last.deletesOld && last.keepFrom == 0 && late < last.cutoff
    ensures !Whole(Run(es + [cut] + [last]))
  {
    RunTracked(es);
    Unroll(es, cut);
    Unroll(es + [cut], last);
    PassClearsBelowCutoff(Run(es), cut);
    LateHalfOverwrites(Run(es + [cut]), last, early, late);
  }
}
