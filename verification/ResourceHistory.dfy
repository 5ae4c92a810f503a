/**
 * Per-minute CPU, memory and disk history of processes: disk bytes as deltas of counters that
 * restart, and averages that two levels of grouping derive from the stored sums.
 */
module ResourceHistory {
  import opened QueryRange
  import opened Sums
  import opened Wrappers

  const NANOS: nat := 1_000_000_000

  /** A process as a snapshot shows it; read and write are its lifetime counters, group its name's group. */
  datatype Process = Process(
    pid: nat, start: nat, name: string, group: string, user: string,
    cpu: real, memory: nat, read: nat, write: nat)

  /** One life of a process: its pid and start time. */
  datatype Incarnation = Incarnation(pid: nat, start: nat)

  datatype Counters = Counters(read: nat, write: nat)

  datatype RowKey = RowKey(bucket: nat, pid: nat, process: string, group: string, user: string)

  datatype Row = Row(
    cpuSum: real, cpuMax: real, memorySum: nat, memoryMax: nat, read: nat, write: nat, samples: nat)

  type Table = map<RowKey, Row>

  datatype Flags = Flags(cpu: bool, memory: bool, disk: bool)

  /** `ledger` is bookkeeping: the disk bytes committed so far for each incarnation. */
  datatype State = State(table: Table, ioSeen: map<Incarnation, Counters>, ledger: map<Incarnation, Counters>)

  function KeyOf(p: Process): Incarnation {
    Incarnation(p.pid, p.start)
  }

  function CountersOf(p: Process): Counters {
    Counters(p.read, p.write)
  }

  function Step(from: nat, to: nat): nat {
    if to >= from then to - from else 0
  }

  function Delta(seen: map<Incarnation, Counters>, disk: bool, p: Process): Counters {
    if disk && KeyOf(p) in seen
    then Counters(Step(seen[KeyOf(p)].read, p.read), Step(seen[KeyOf(p)].write, p.write))
    else Counters(0, 0)
  }

  function MaxReal(a: real, b: real): real {
    if a >= b then a else b
  }

  function MaxNat(a: nat, b: nat): nat {
    if a >= b then a else b
  }

  /** INSERT ... ON CONFLICT DO UPDATE for one process. */
  function Upsert(t: Table, k: RowKey, cpu: real, memory: nat, delta: Counters): Table {
    t[k := if k in t then
             var r := t[k];
             Row(r.cpuSum + cpu, MaxReal(r.cpuMax, cpu), r.memorySum + memory, MaxNat(r.memoryMax, memory),
                 r.read + delta.read, r.write + delta.write, r.samples + 1)
           else Row(cpu, cpu, memory, memory, delta.read, delta.write, 1)]
  }

  function At(m: map<Incarnation, Counters>, k: Incarnation): Counters {
    if k in m then m[k] else Counters(0, 0)
  }

  function Remember(seen: map<Incarnation, Counters>, p: Process): map<Incarnation, Counters> {
    seen[KeyOf(p) := CountersOf(p)]
  }

  function Charge(ledger: map<Incarnation, Counters>, k: Incarnation, delta: Counters): map<Incarnation, Counters> {
    ledger[k := Counters(At(ledger, k).read + delta.read, At(ledger, k).write + delta.write)]
  }

  function RowKeyOf(bucket: nat, p: Process): RowKey {
    RowKey(bucket, p.pid, p.name, p.group, p.user)
  }

  function Sample(t: Table, flags: Flags, bucket: nat, p: Process, delta: Counters): Table {
    Upsert(t, RowKeyOf(bucket, p), if flags.cpu then p.cpu else 0.0, if flags.memory then p.memory else 0, delta)
  }

  function Record(s: State, flags: Flags, bucket: nat, p: Process): State {
    var delta := Delta(s.ioSeen, flags.disk, p);
    State(Sample(s.table, flags, bucket, p, delta), Remember(s.ioSeen, p), Charge(s.ledger, KeyOf(p), delta))
  }

  function RecordAll(s: State, flags: Flags, bucket: nat, ps: seq<Process>): State {
    if ps == [] then s else Record(RecordAll(s, flags, bucket, ps[..|ps| - 1]), flags, bucket, ps[|ps| - 1])
  }

  function Present(ps: seq<Process>): set<Incarnation> {
    set i | 0 <= i < |ps| :: KeyOf(ps[i])
  }

  function Keep(seen: map<Incarnation, Counters>, present: set<Incarnation>): map<Incarnation, Counters> {
    map k | k in seen && k in present :: seen[k]
  }

  /** How a save ends: the transaction never begins, insert n fails, the commit fails, or all is well. */
  datatype Fate = NeverBegins | InsertFails(n: nat) | CommitFails | Commits

  /**
   * The in-memory counters move as the loop goes, whatever becomes of the transaction; the table
   * (and with it the ledger) only moves on commit.
   */
  function Save(s: State, now: nat, ps: seq<Process>, flags: Flags, fate: Fate): State {
    if !flags.cpu && !flags.memory && !flags.disk then s.(ioSeen := map[])
    else if fate.NeverBegins? then s
    else
      var bucket := now / NANOS / 60 * 60;
      if fate.InsertFails? && fate.n < |ps| then
        s.(ioSeen := RecordAll(s, flags, bucket, ps[..fate.n + 1]).ioSeen)
      else
        var done := RecordAll(s, flags, bucket, ps);
        var seen := Keep(done.ioSeen, Present(ps));
        if fate.CommitFails? then s.(ioSeen := seen) else done.(ioSeen := seen)
  }

  datatype Event =
    | Snapshot(now: nat, ps: seq<Process>, flags: Flags, fate: Fate)
    | Clear(deleted: bool)
    | Prune(cutoff: nat)

  function Next(s: State, ev: Event): State {
    match ev
    case Snapshot(now, ps, flags, fate) => Save(s, now, ps, flags, fate)
    case Clear(deleted) => if deleted then s.(table := map[], ioSeen := map[]) else s
    case Prune(cutoff) => s.(table := map k | k in s.table && k.bucket >= cutoff :: s.table[k])
  }

  function Run(es: seq<Event>): State {
    if es == [] then State(map[], map[], map[]) else Next(Run(es[..|es| - 1]), es[|es| - 1])
  }

  // ---- disk bytes never over-count ----

  datatype Disk = Reads | Writes

  function Part(c: Counters, d: Disk): nat {
    if d == Reads then c.read else c.write
  }

  /** What has been shown of one counter: its first and last value and the sum of its upward steps. */
  datatype Shown = Nothing | Shown(first: nat, last: nat, climbed: nat)

  function Show(o: Shown, value: nat): Shown {
    match o
    case Nothing => Shown(value, value, 0)
    case Shown(first, last, climbed) => Shown(first, value, climbed + Step(last, value))
  }

  function ShowOne(o: Shown, p: Process, k: Incarnation, d: Disk): Shown {
    if KeyOf(p) == k then Show(o, Part(CountersOf(p), d)) else o
  }

  function ShowAll(o: Shown, ps: seq<Process>, k: Incarnation, d: Disk): Shown {
    if ps == [] then o
    else
      var before, p := ShowAll(o, ps[..|ps| - 1], k, d), ps[|ps| - 1];
      ShowOne(before, p, k, d)
  }

  /** Every value of the counter that any snapshot of the events presented, used or not, after those in `o`. */
  function HistoryFrom(o: Shown, es: seq<Event>, k: Incarnation, d: Disk): Shown {
    if es == [] then o
    else
      var before, ev := HistoryFrom(o, es[..|es| - 1], k, d), es[|es| - 1];
      if ev.Snapshot? then ShowAll(before, ev.ps, k, d) else before
  }

  function History(es: seq<Event>, k: Incarnation, d: Disk): Shown {
    HistoryFrom(Nothing, es, k, d)
  }

  function Climbed(o: Shown): nat {
    match o
    case Nothing => 0
    case Shown(_, _, climbed) => climbed
  }

  /** One counter as the store sees it: the value it remembers and the bytes it has recorded. */
  datatype Lane = Lane(remembered: Option<nat>, recorded: nat)

  function LaneOf(s: State, k: Incarnation, d: Disk): Lane {
    Lane(if k in s.ioSeen then Some(Part(s.ioSeen[k], d)) else None, Part(At(s.ledger, k), d))
  }

  function Move(l: Lane, disk: bool, p: Process, k: Incarnation, d: Disk): Lane {
    if KeyOf(p) != k then l
    else
      var value := Part(CountersOf(p), d);
      Lane(Some(value), l.recorded + if disk && l.remembered.Some? then Step(l.remembered.value, value) else 0)
  }

  function MoveAll(l: Lane, disk: bool, ps: seq<Process>, k: Incarnation, d: Disk): Lane {
    if ps == [] then l else Move(MoveAll(l, disk, ps[..|ps| - 1], k, d), disk, ps[|ps| - 1], k, d)
  }

  lemma RecordMoves(s: State, flags: Flags, bucket: nat, p: Process, k: Incarnation, d: Disk)
    ensures LaneOf(Record(s, flags, bucket, p), k, d) == Move(LaneOf(s, k, d), flags.disk, p, k, d)
  {
  }

  lemma {:induction false} RecordAllMoves(s: State, flags: Flags, bucket: nat, ps: seq<Process>, k: Incarnation,
                                          d: Disk)
    ensures LaneOf(RecordAll(s, flags, bucket, ps), k, d) == MoveAll(LaneOf(s, k, d), flags.disk, ps, k, d)
  {
    if ps != [] {
      RecordAllMoves(s, flags, bucket, ps[..|ps| - 1], k, d);
      RecordMoves(RecordAll(s, flags, bucket, ps[..|ps| - 1]), flags, bucket, ps[|ps| - 1], k, d);
    }
  }

  /** Recorded bytes, plus what the remembered value is behind the last one shown, fit in the climbs. */
  predicate Fits(l: Lane, o: Shown) {
    && l.recorded <= Climbed(o)
    && (l.remembered.Some? ==> o.Shown? && l.recorded + Step(l.remembered.value, o.last) <= o.climbed)
  }

  /** Going up in two steps climbs at least as much as in one. */
  lemma StepsTriangle(a: nat, b: nat, c: nat)
    ensures Step(a, c) <= Step(a, b) + Step(b, c)
  {
  }

  lemma MoveFits(l: Lane, disk: bool, p: Process, o: Shown, k: Incarnation, d: Disk)
    requires Fits(l, o)
    ensures Fits(Move(l, disk, p, k, d), ShowOne(o, p, k, d))
  {
    if l.remembered.Some? {
      StepsTriangle(l.remembered.value, o.last, Part(CountersOf(p), d));
    }
  }

  lemma {:induction false} MoveAllFits(l: Lane, disk: bool, ps: seq<Process>, o: Shown, k: Incarnation, d: Disk)
    requires Fits(l, o)
    ensures Fits(MoveAll(l, disk, ps, k, d), ShowAll(o, ps, k, d))
    ensures l.recorded <= MoveAll(l, disk, ps, k, d).recorded
  {
    if ps != [] {
      MoveAllFits(l, disk, ps[..|ps| - 1], o, k, d);
      MoveFits(MoveAll(l, disk, ps[..|ps| - 1], k, d), disk, ps[|ps| - 1], ShowAll(o, ps[..|ps| - 1], k, d), k, d);
    }
  }

  /** Values that are shown but not used leave room for the counter to catch up later. */
  lemma {:induction false} SkippedFits(l: Lane, ps: seq<Process>, o: Shown, k: Incarnation, d: Disk)
    requires Fits(l, o)
    ensures Fits(l, ShowAll(o, ps, k, d))
  {
    if ps != [] {
      var before, p := ShowAll(o, ps[..|ps| - 1], k, d), ps[|ps| - 1];
      SkippedFits(l, ps[..|ps| - 1], o, k, d);
      if l.remembered.Some? {
        StepsTriangle(l.remembered.value, before.last, Part(CountersOf(p), d));
      }
    }
  }

  lemma {:induction false} ShowAllAppend(o: Shown, a: seq<Process>, b: seq<Process>, k: Incarnation, d: Disk)
    ensures ShowAll(o, a + b, k, d) == ShowAll(ShowAll(o, a, k, d), b, k, d)
  {
    if b == [] {
      assert a + b == a;
    } else {
      assert (a + b)[..|a + b| - 1] == a + b[..|b| - 1];
      ShowAllAppend(o, a, b[..|b| - 1], k, d);
    }
  }

  /** After a failed insert, the counters up to it have moved and nothing is recorded. */
  lemma FailedFits(l: Lane, disk: bool, ps: seq<Process>, n: nat, o: Shown, k: Incarnation, d: Disk)
    requires n <= |ps| && Fits(l, o)
    ensures Fits(MoveAll(l, disk, ps[..n], k, d).(recorded := l.recorded), ShowAll(o, ps, k, d))
  {
    var used, rest := ps[..n], ps[n..];
    assert used + rest == ps;
    MoveAllFits(l, disk, used, o, k, d);
    ShowAllAppend(o, used, rest, k, d);
    SkippedFits(MoveAll(l, disk, used, k, d).(recorded := l.recorded), rest, ShowAll(o, used, k, d), k, d);
  }

  lemma SaveFits(s: State, now: nat, ps: seq<Process>, flags: Flags, fate: Fate, o: Shown, k: Incarnation, d: Disk)
    requires Fits(LaneOf(s, k, d), o)
    ensures Fits(LaneOf(Save(s, now, ps, flags, fate), k, d), ShowAll(o, ps, k, d))
  {
    var bucket, l := now / NANOS / 60 * 60, LaneOf(s, k, d);
    if (!flags.cpu && !flags.memory && !flags.disk) || fate.NeverBegins? {
      SkippedFits(l, ps, o, k, d);
    } else if fate.InsertFails? && fate.n < |ps| {
      RecordAllMoves(s, flags, bucket, ps[..fate.n + 1], k, d);
      FailedFits(l, flags.disk, ps, fate.n + 1, o, k, d);
    } else {
      RecordAllMoves(s, flags, bucket, ps, k, d);
      MoveAllFits(l, flags.disk, ps, o, k, d);
    }
  }

  lemma {:induction false} RunFits(es: seq<Event>, k: Incarnation, d: Disk)
    ensures Fits(LaneOf(Run(es), k, d), History(es, k, d))
  {
    if es != [] {
      var n := |es| - 1;
      RunFits(es[..n], k, d);
      if es[n].Snapshot? {
        SaveFits(Run(es[..n]), es[n].now, es[n].ps, es[n].flags, es[n].fate, History(es[..n], k, d), k, d);
      }
    }
  }

  /**
   * Over any run of snapshots, toggles, clears, prunes and failed transactions, the disk bytes
   * recorded for one incarnation never exceed the sum of the upward steps of its counter.
   */
  lemma DiskNeverOverCounts(es: seq<Event>, k: Incarnation, d: Disk)
    ensures Part(At(Run(es).ledger, k), d) <= Climbed(History(es, k, d))
  {
    RunFits(es, k, d);
  }

  // ---- and are exact while nothing goes wrong ----

  predicate Steady(ev: Event, k: Incarnation) {
    match ev
    case Snapshot(_, ps, flags, fate) => flags.disk && fate == Commits && k in Present(ps)
    case Clear(deleted) => !deleted
    case Prune(_) => true
  }

  /** Each value that a snapshot presents for k is at least the one shown before it. */
  predicate Rises(o: Shown, ps: seq<Process>, k: Incarnation, d: Disk) {
    if ps == [] then true
    else
      var before, p := ShowAll(o, ps[..|ps| - 1], k, d), ps[|ps| - 1];
      Rises(o, ps[..|ps| - 1], k, d)
      && (KeyOf(p) == k && before.Shown? ==> Part(CountersOf(p), d) >= before.last)
  }

  /** The counter never falls: so it is for every snapshot of the events, after what `o` shows. */
  predicate NeverFalls(o: Shown, es: seq<Event>, k: Incarnation, d: Disk) {
    if es == [] then true
    else
      var before, ev := es[..|es| - 1], es[|es| - 1];
      NeverFalls(o, before, k, d) && (ev.Snapshot? ==> Rises(HistoryFrom(o, before, k, d), ev.ps, k, d))
  }

  /** How far the climbs exceed last minus first. */
  function Lost(o: Shown): int {
    match o
    case Nothing => 0
    case Shown(first, last, climbed) => climbed - (last - first)
  }

  lemma {:induction false} RisesIff(o: Shown, ps: seq<Process>, k: Incarnation, d: Disk)
    ensures Lost(ShowAll(o, ps, k, d)) >= Lost(o)
    ensures Rises(o, ps, k, d) <==> Lost(ShowAll(o, ps, k, d)) == Lost(o)
  {
    if ps != [] {
      RisesIff(o, ps[..|ps| - 1], k, d);
    }
  }

  /** Climbs equal last minus first if and only if the counter never falls. */
  lemma {:induction false} NeverFallsIff(o: Shown, es: seq<Event>, k: Incarnation, d: Disk)
    ensures Lost(HistoryFrom(o, es, k, d)) >= Lost(o)
    ensures NeverFalls(o, es, k, d) <==> Lost(HistoryFrom(o, es, k, d)) == Lost(o)
  {
    if es != [] {
      var before, ev := es[..|es| - 1], es[|es| - 1];
      NeverFallsIff(o, before, k, d);
      if ev.Snapshot? {
        RisesIff(HistoryFrom(o, before, k, d), ev.ps, k, d);
      }
    }
  }

  /** The remembered value is the last one shown, and beyond `base` exactly the climbs are recorded. */
  predicate Caught(l: Lane, base: nat, o: Shown) {
    l.recorded == base + Climbed(o) && l.remembered == if o.Shown? then Some(o.last) else None
  }

  /** What a history starts from: the value the store remembers, if it does. */
  function StartOf(s: State, k: Incarnation, d: Disk): Shown {
    if k in s.ioSeen then Shown(Part(s.ioSeen[k], d), Part(s.ioSeen[k], d), 0) else Nothing
  }

  function Recorded(s: State, k: Incarnation, d: Disk): nat {
    Part(At(s.ledger, k), d)
  }

  lemma {:induction false} MoveAllCaught(l: Lane, base: nat, ps: seq<Process>, o: Shown, k: Incarnation, d: Disk)
    requires Caught(l, base, o)
    ensures Caught(MoveAll(l, true, ps, k, d), base, ShowAll(o, ps, k, d))
  {
    if ps != [] {
      MoveAllCaught(l, base, ps[..|ps| - 1], o, k, d);
    }
  }

  lemma {:induction false} SteadyIsExact(before: seq<Event>, es: seq<Event>, k: Incarnation, d: Disk)
    requires forall ev :: ev in es ==> Steady(ev, k)
    ensures Caught(LaneOf(Run(before + es), k, d), Recorded(Run(before), k, d),
                   HistoryFrom(StartOf(Run(before), k, d), es, k, d))
  {
    if es == [] {
      assert before + es == before;
    } else {
      var n := |es| - 1;
      assert (before + es)[..|before + es| - 1] == before + es[..n];
      SteadyIsExact(before, es[..n], k, d);
      var ev, s := es[n], Run(before + es[..n]);
      assert Steady(ev, k);
      if ev.Snapshot? {
        RecordAllMoves(s, ev.flags, ev.now / NANOS / 60 * 60, ev.ps, k, d);
        MoveAllCaught(LaneOf(s, k, d), Recorded(Run(before), k, d), ev.ps,
                      HistoryFrom(StartOf(Run(before), k, d), es[..n], k, d), k, d);
      }
    }
  }

  /**
   * The deltas telescope: after any run whatever, while an incarnation stays listed, disk history stays
   * on, every save commits and nothing is cleared, exactly the climbs of its counter are added, from the
   * value remembered at the start or, for a newcomer, from the first one shown; and that is last minus
   * first if and only if no snapshot showed the counter lower than the one before.
   */
  lemma DiskDeltasTelescope(before: seq<Event>, es: seq<Event>, k: Incarnation, d: Disk)
    requires forall ev :: ev in es ==> Steady(ev, k)
    ensures var start := StartOf(Run(before), k, d);
            var o := HistoryFrom(start, es, k, d);
            var added := Recorded(Run(before + es), k, d) - Recorded(Run(before), k, d);
            added == Climbed(o) && (o.Shown? ==> (added == o.last - o.first <==> NeverFalls(start, es, k, d)))
  {
    SteadyIsExact(before, es, k, d);
    NeverFallsIff(StartOf(Run(before), k, d), es, k, d);
  }

  // ---- the table holds what the ledger says ----

  /** The disk bytes of the rows of one pid, and of its incarnations. */
  ghost function RowColumn(t: Table, pid: nat, d: Disk): map<RowKey, int> {
    map k | k in t :: if k.pid != pid then 0 else if d == Reads then t[k].read else t[k].write
  }

  ghost function LedgerColumn(ledger: map<Incarnation, Counters>, pid: nat, d: Disk): map<Incarnation, int> {
    map k | k in ledger :: if k.pid == pid then Part(ledger[k], d) else 0
  }

  lemma UpsertColumn(t: Table, k: RowKey, cpu: real, memory: nat, delta: Counters, pid: nat, d: Disk)
    ensures Sum(RowColumn(Upsert(t, k, cpu, memory, delta), pid, d))
         == Sum(RowColumn(t, pid, d)) + if k.pid == pid then Part(delta, d) else 0
  {
    var t' := Upsert(t, k, cpu, memory, delta);
    var value := if k.pid != pid then 0 else if d == Reads then t'[k].read else t'[k].write;
    SumUpdate(RowColumn(t, pid, d), k, value);
    assert RowColumn(t', pid, d) == RowColumn(t, pid, d)[k := value as int];
  }

  lemma LedgerUpdate(ledger: map<Incarnation, Counters>, k: Incarnation, delta: Counters, pid: nat, d: Disk)
    ensures Sum(LedgerColumn(Charge(ledger, k, delta), pid, d))
         == Sum(LedgerColumn(ledger, pid, d)) + if k.pid == pid then Part(delta, d) else 0
  {
    var value := if k.pid == pid then Part(At(ledger, k), d) + Part(delta, d) else 0;
    SumUpdate(LedgerColumn(ledger, pid, d), k, value);
    assert LedgerColumn(Charge(ledger, k, delta), pid, d) == LedgerColumn(ledger, pid, d)[k := value as int];
  }

  ghost function Imbalance(s: State, pid: nat, d: Disk): int {
    Sum(RowColumn(s.table, pid, d)) - Sum(LedgerColumn(s.ledger, pid, d))
  }

  lemma {:induction false} RecordAllBalanced(s: State, flags: Flags, bucket: nat, ps: seq<Process>, pid: nat, d: Disk)
    ensures Imbalance(RecordAll(s, flags, bucket, ps), pid, d) == Imbalance(s, pid, d)
  {
    if ps != [] {
      var n := |ps| - 1;
      RecordAllBalanced(s, flags, bucket, ps[..n], pid, d);
      var before, p := RecordAll(s, flags, bucket, ps[..n]), ps[n];
      var delta := Delta(before.ioSeen, flags.disk, p);
      UpsertColumn(before.table, RowKeyOf(bucket, p),
                   if flags.cpu then p.cpu else 0.0, if flags.memory then p.memory else 0, delta, pid, d);
      LedgerUpdate(before.ledger, KeyOf(p), delta, pid, d);
    }
  }

  lemma SaveBalanced(s: State, now: nat, ps: seq<Process>, flags: Flags, fate: Fate, pid: nat, d: Disk)
    ensures Imbalance(Save(s, now, ps, flags, fate), pid, d) == Imbalance(s, pid, d)
  {
    RecordAllBalanced(s, flags, now / NANOS / 60 * 60, ps, pid, d);
  }

  /** Without clears and prunes, the disk bytes of each pid's rows are those of its incarnations. */
  lemma {:induction false} TableMatchesLedger(es: seq<Event>, pid: nat, d: Disk)
    requires forall ev :: ev in es ==> ev.Snapshot?
    ensures Sum(RowColumn(Run(es).table, pid, d)) == Sum(LedgerColumn(Run(es).ledger, pid, d))
  {
    if es == [] {
      assert RowColumn(map[], pid, d) == map[] && LedgerColumn(map[], pid, d) == map[];
    } else {
      var n := |es| - 1;
      TableMatchesLedger(es[..n], pid, d);
      assert es[n].Snapshot?;
      SaveBalanced(Run(es[..n]), es[n].now, es[n].ps, es[n].flags, es[n].fate, pid, d);
    }
  }

  // ---- averages never exceed peaks ----

  predicate Sound(r: Row) {
    r.samples >= 1 && r.cpuSum <= r.samples as real * r.cpuMax && r.memorySum <= r.samples * r.memoryMax
  }

  ghost predicate AllSound(t: Table) {
    forall k :: k in t ==> Sound(t[k])
  }

  lemma OneMoreSample(n: nat, sum: real, max: real, value: real)
    requires sum <= n as real * max
    ensures sum + value <= (n + 1) as real * MaxReal(max, value)
  {
    var top := MaxReal(max, value);
    assert n as real * max <= n as real * top;
    assert (n + 1) as real * top == n as real * top + top;
  }

  lemma OneMoreNat(n: nat, sum: nat, max: nat, value: nat)
    requires sum <= n * max
    ensures sum + value <= (n + 1) * MaxNat(max, value)
  {
    var top := MaxNat(max, value);
    assert n * max <= n * top;
    assert (n + 1) * top == n * top + top;
  }

  lemma UpsertSound(t: Table, k: RowKey, cpu: real, memory: nat, delta: Counters)
    requires AllSound(t)
    ensures AllSound(Upsert(t, k, cpu, memory, delta))
  {
    if k in t {
      OneMoreSample(t[k].samples, t[k].cpuSum, t[k].cpuMax, cpu);
      OneMoreNat(t[k].samples, t[k].memorySum, t[k].memoryMax, memory);
    }
  }

  lemma {:induction false} RecordAllSound(s: State, flags: Flags, bucket: nat, ps: seq<Process>)
    requires AllSound(s.table)
    ensures AllSound(RecordAll(s, flags, bucket, ps).table)
  {
    if ps != [] {
      var n := |ps| - 1;
      RecordAllSound(s, flags, bucket, ps[..n]);
      var before, p := RecordAll(s, flags, bucket, ps[..n]), ps[n];
      UpsertSound(before.table, RowKeyOf(bucket, p),
                  if flags.cpu then p.cpu else 0.0, if flags.memory then p.memory else 0,
                  Delta(before.ioSeen, flags.disk, p));
    }
  }

  lemma {:induction false} RunSound(es: seq<Event>)
    ensures AllSound(Run(es).table)
  {
    if es != [] {
      var n := |es| - 1;
      RunSound(es[..n]);
      if es[n].Snapshot? {
        RecordAllSound(Run(es[..n]), es[n].flags, es[n].now / NANOS / 60 * 60, es[n].ps);
      }
    }
  }

  /** The rows of one minute, summed over processes. */
  function BucketRows(rows: Table, bucket: nat): Table {
    map k | k in rows && k.bucket == bucket :: rows[k]
  }

  function Buckets(rows: Table): set<nat> {
    set k | k in rows :: k.bucket
  }

  function CpuOf(r: Row): real {
    if r.samples == 0 then 0.0 else r.cpuSum / r.samples as real
  }

  function MemoryOf(r: Row): nat {
    if r.samples == 0 then 0 else r.memorySum / r.samples
  }

  ghost function CpuAverages(rows: Table): (m: map<nat, real>)
    ensures m.Keys == Buckets(rows)
  {
    map b | b in Buckets(rows) :: SumR(map k | k in BucketRows(rows, b) :: CpuOf(rows[k]))
  }

  ghost function CpuPeaks(rows: Table): (m: map<nat, real>)
    ensures m.Keys == Buckets(rows)
  {
    map b | b in Buckets(rows) :: SumR(map k | k in BucketRows(rows, b) :: rows[k].cpuMax)
  }

  ghost function MemoryAverages(rows: Table): (m: map<nat, real>)
    ensures m.Keys == Buckets(rows)
  {
    map b | b in Buckets(rows) :: Sum(map k | k in BucketRows(rows, b) :: MemoryOf(rows[k]) as int) as real
  }

  ghost function MemoryPeaks(rows: Table): (m: map<nat, real>)
    ensures m.Keys == Buckets(rows)
  {
    map b | b in Buckets(rows) :: Sum(map k | k in BucketRows(rows, b) :: rows[k].memoryMax as int) as real
  }

  datatype Usage = Usage(cpuAverage: real, cpuPeak: real, memoryAverage: int, memoryPeak: real)

  lemma HasBuckets(rows: Table)
    requires rows != map[]
    ensures Buckets(rows) != {}
  {
    var k :| k in rows;
    assert k.bucket in Buckets(rows);
  }

  /** AVG and MAX over the minutes; the memory average is cast back to an integer. */
  ghost function Aggregate(rows: Table): Usage
    requires rows != map[]
  {
    HasBuckets(rows);
    Usage(Mean(CpuAverages(rows)), Max(CpuPeaks(rows)), Mean(MemoryAverages(rows)).Floor, Max(MemoryPeaks(rows)))
  }

  lemma RowAverage(r: Row)
    requires Sound(r)
    ensures CpuOf(r) <= r.cpuMax && MemoryOf(r) <= r.memoryMax
  {
    DivideAtMost(r.cpuSum, r.samples as real, r.cpuMax);
    DivideNat(r.memorySum, r.samples, r.memoryMax);
  }

  lemma DivideNat(sum: nat, n: nat, max: nat)
    requires n >= 1 && sum <= n * max
    ensures sum / n <= max
  {
    var q := sum / n;
    assert q * n <= sum;
    CancelFactor(max, q, n);
  }

  lemma CancelFactor(x: int, y: int, n: nat)
    requires n >= 1 && x * n >= y * n
    ensures x >= y
  {
    assert (x - y) * n >= 0;
  }

  lemma BucketAverage(rows: Table, bucket: nat)
    requires AllSound(rows) && bucket in Buckets(rows)
    ensures CpuAverages(rows)[bucket] <= CpuPeaks(rows)[bucket]
    ensures MemoryAverages(rows)[bucket] <= MemoryPeaks(rows)[bucket]
  {
    forall k | k in rows ensures CpuOf(rows[k]) <= rows[k].cpuMax && MemoryOf(rows[k]) <= rows[k].memoryMax {
      RowAverage(rows[k]);
    }
    SumRMonotone(map k | k in BucketRows(rows, bucket) :: CpuOf(rows[k]),
                 map k | k in BucketRows(rows, bucket) :: rows[k].cpuMax);
    SumMonotone(map k | k in BucketRows(rows, bucket) :: MemoryOf(rows[k]) as int,
                map k | k in BucketRows(rows, bucket) :: rows[k].memoryMax as int);
  }

  /** A mean of averages is at most the greatest peak. */
  lemma MeanBelowMax(averages: map<nat, real>, peaks: map<nat, real>)
    requires averages != map[] && averages.Keys == peaks.Keys && peaks != map[]
    requires forall b :: b in averages ==> averages[b] <= peaks[b]
    ensures Mean(averages) <= Max(peaks)
  {
    MaxIsGreatest(peaks);
    MeanAtMost(averages, Max(peaks));
  }

  lemma AggregateSound(rows: Table)
    requires rows != map[] && AllSound(rows)
    ensures Aggregate(rows).cpuAverage <= Aggregate(rows).cpuPeak
    ensures Aggregate(rows).memoryAverage as real <= Aggregate(rows).memoryPeak
  {
    HasBuckets(rows);
    forall b | b in Buckets(rows)
      ensures CpuAverages(rows)[b] <= CpuPeaks(rows)[b] && MemoryAverages(rows)[b] <= MemoryPeaks(rows)[b]
    {
      BucketAverage(rows, b);
    }
    MeanBelowMax(CpuAverages(rows), CpuPeaks(rows));
    MeanBelowMax(MemoryAverages(rows), MemoryPeaks(rows));
  }

  // ---- the two queries ----

  function NameOf(k: RowKey, grouping: GroupBy): string {
    if grouping == PerProcess then k.process else k.group
  }

  /** The rows behind one usage line; `matches` is the text filter. */
  function UsageRows(t: Table, from: nat, to: nat, grouping: GroupBy, matches: RowKey -> bool, name: string): Table {
    map k | k in t && from <= k.bucket <= to && matches(k) && NameOf(k, grouping) == name :: t[k]
  }

  /** The rows behind one timeline point. */
  function PointRows(t: Table, from: nat, to: nat, grouping: GroupBy, name: string, point: nat): Table {
    map k | k in t && from <= k.bucket <= to && NameOf(k, grouping) == name
            && k.bucket / Interval(from, to) == point :: t[k]
  }

  /**
   * After any run, every line of ResourceUsage and every point of ResourceTimeline has a CPU average
   * at most its CPU peak and a memory average at most its memory peak.
   */
  lemma AveragesNeverExceedPeaks(es: seq<Event>, from: nat, to: nat, grouping: GroupBy, matches: RowKey -> bool,
                                 name: string, point: nat)
    ensures var rows := UsageRows(Run(es).table, from, to, grouping, matches, name);
            rows != map[] ==> Aggregate(rows).cpuAverage <= Aggregate(rows).cpuPeak
                              && Aggregate(rows).memoryAverage as real <= Aggregate(rows).memoryPeak
    ensures var rows := PointRows(Run(es).table, from, to, grouping, name, point);
            rows != map[] ==> Aggregate(rows).cpuAverage <= Aggregate(rows).cpuPeak
                              && Aggregate(rows).memoryAverage as real <= Aggregate(rows).memoryPeak
  {
    RunSound(es);
    var usage := UsageRows(Run(es).table, from, to, grouping, matches, name);
    var points := PointRows(Run(es).table, from, to, grouping, name, point);
    if usage != map[] {
      AggregateSound(usage);
    }
    if points != map[] {
      AggregateSound(points);
    }
  }

  // ---- the save loop ----

  class ResourceStore {
    var table: Table
    var ioSeen: map<Incarnation, Counters>
    ghost var ledger: map<Incarnation, Counters>

    ghost function View(): State
      reads this
    {
      State(table, ioSeen, ledger)
    }

    constructor ()
      ensures View() == Run([])
    {
      table, ioSeen, ledger := map[], map[], map[];
    }

    /** The insert loop of one transaction; `stopped` when insert fate.n failed. */
    method InsertAll(ps: seq<Process>, flags: Flags, bucket: nat, fate: Fate)
      returns (stopped: bool, rows: Table, ghost entries: map<Incarnation, Counters>, active: set<Incarnation>)
      modifies this`ioSeen
      ensures stopped <==> fate.InsertFails? && fate.n < |ps|
      ensures stopped ==> ioSeen == RecordAll(old(View()), flags, bucket, ps[..fate.n + 1]).ioSeen
      ensures !stopped ==> active == Present(ps)
      ensures !stopped ==> State(rows, ioSeen, entries) == RecordAll(old(View()), flags, bucket, ps)
    {
      ghost var before := View();
      rows, entries, active := table, ledger, {};
      for i := 0 to |ps|
        invariant active == Present(ps[..i])
        invariant fate.InsertFails? ==> fate.n >= i
        invariant State(rows, ioSeen, entries) == RecordAll(before, flags, bucket, ps[..i])
      {
        assert ps[..i + 1][..i] == ps[..i];
        var p := ps[i];
        PresentSnoc(ps[..i + 1]);
        active := active + {KeyOf(p)};
        var delta := Delta(ioSeen, flags.disk, p);
        ioSeen := Remember(ioSeen, p);
        if fate == InsertFails(i) {
          return true, rows, entries, active;
        }
        rows := Sample(rows, flags, bucket, p, delta);
        entries := Charge(entries, KeyOf(p), delta);
      }
      assert ps[..|ps|] == ps;
      stopped := false;
    }

    method SaveProcessResources(now: nat, ps: seq<Process>, flags: Flags, fate: Fate) returns (ok: bool)
      modifies this
      ensures View() == Save(old(View()), now, ps, flags, fate)
      ensures !ok ==> table == old(table)
    {
      if !flags.cpu && !flags.memory && !flags.disk {
        ioSeen := map[];
        return true;
      }
      if fate.NeverBegins? {
        return false;
      }
      var stopped, rows, entries, active := InsertAll(ps, flags, now / NANOS / 60 * 60, fate);
      if stopped {
        return false;
      }
      ioSeen := Keep(ioSeen, active);
      if fate.CommitFails? {
        return false;
      }
      table, ledger := rows, entries;
      return true;
    }

    method ClearResourceHistory()
      modifies this`table, this`ioSeen
      ensures View() == Next(old(View()), Clear(true))
    {
      table, ioSeen := map[], map[];
    }
  }

  lemma PresentSnoc(ps: seq<Process>)
    requires ps != []
    ensures Present(ps) == Present(ps[..|ps| - 1]) + {KeyOf(ps[|ps| - 1])}
  {
    var n := |ps| - 1;
    forall k | k in Present(ps) ensures k in Present(ps[..n]) + {KeyOf(ps[n])} {
      var i :| 0 <= i < |ps| && KeyOf(ps[i]) == k;
      if i < n {
        assert KeyOf(ps[..n][i]) == k;
      }
    }
    forall k | k in Present(ps[..n]) ensures k in Present(ps) {
      var i :| 0 <= i < n && KeyOf(ps[..n][i]) == k;
      assert KeyOf(ps[i]) == k;
    }
  }
}
