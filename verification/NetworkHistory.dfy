/** Per-minute flow rows and the queries that re-aggregate them. */
module NetworkHistory {
  import opened QueryRange
  import opened Sums
  import opened NetworkFlows

  const NANOS: nat := 1_000_000_000

  datatype RowKey = RowKey(
    bucket: nat, pid: nat, process: string, group: string, user: string,
    protocol: string, remoteIp: RemoteIp, remotePort: nat)

  datatype Row = Row(rx: nat, tx: nat, samples: nat)

  type Table = map<RowKey, Row>

  function Bucket(timestamp: nat): nat {
    timestamp / NANOS / 60 * 60
  }

  function KeyOf(f: Flow): RowKey {
    RowKey(Bucket(f.timestamp), f.pid, f.process, f.group, f.user, f.protocol, f.remoteIp, f.remotePort)
  }

  /** INSERT ... ON CONFLICT DO UPDATE for one flow; an empty flow is skipped. */
  function Upsert(t: Table, f: Flow): Table {
    if f.rx == 0 && f.tx == 0 then t
    else
      var k := KeyOf(f);
      t[k := if k in t then Row(t[k].rx + f.rx, t[k].tx + f.tx, t[k].samples + 1) else Row(f.rx, f.tx, 1)]
  }

  function UpsertAll(t: Table, flows: seq<Flow>): Table {
    if flows == [] then t else Upsert(UpsertAll(t, flows[..|flows| - 1]), flows[|flows| - 1])
  }

  // ---- what the rows must hold, said of the flows alone ----

  predicate Hits(f: Flow, k: RowKey) {
    KeyOf(f) == k && (f.rx != 0 || f.tx != 0)
  }

  function RxInto(flows: seq<Flow>, k: RowKey): nat {
    if flows == [] then 0
    else RxInto(flows[1..], k) + if Hits(flows[0], k) then flows[0].rx else 0
  }

  function TxInto(flows: seq<Flow>, k: RowKey): nat {
    if flows == [] then 0
    else TxInto(flows[1..], k) + if Hits(flows[0], k) then flows[0].tx else 0
  }

  function SamplesInto(flows: seq<Flow>, k: RowKey): nat {
    if flows == [] then 0
    else SamplesInto(flows[1..], k) + if Hits(flows[0], k) then 1 else 0
  }

  function Concat(batches: seq<seq<Flow>>): seq<Flow> {
    if batches == [] then [] else Concat(batches[..|batches| - 1]) + batches[|batches| - 1]
  }

  /** The table after a sequence of saves; a save either commits its whole batch or changes nothing. */
  function Saves(batches: seq<seq<Flow>>, commits: seq<bool>): Table
    requires |batches| == |commits|
  {
    if batches == [] then map[]
    else
      var n := |batches| - 1;
      var before := Saves(batches[..n], commits[..n]);
      if commits[n] then UpsertAll(before, batches[n]) else before
  }

  function Committed(batches: seq<seq<Flow>>, commits: seq<bool>): seq<seq<Flow>>
    requires |batches| == |commits|
  {
    if batches == [] then []
    else
      var n := |batches| - 1;
      Committed(batches[..n], commits[..n]) + if commits[n] then [batches[n]] else []
  }

  lemma {:induction false} IntoAppend(a: seq<Flow>, b: seq<Flow>, k: RowKey)
    ensures RxInto(a + b, k) == RxInto(a, k) + RxInto(b, k)
    ensures TxInto(a + b, k) == TxInto(a, k) + TxInto(b, k)
    ensures SamplesInto(a + b, k) == SamplesInto(a, k) + SamplesInto(b, k)
  {
    if a == [] {
      assert a + b == b;
    } else {
      assert (a + b)[1..] == a[1..] + b;
      IntoAppend(a[1..], b, k);
    }
  }

  ghost predicate Exact(t: Table, flows: seq<Flow>) {
    forall k :: (k in t <==> SamplesInto(flows, k) > 0)
      && (k in t ==> t[k] == Row(RxInto(flows, k), TxInto(flows, k), SamplesInto(flows, k)))
  }

  lemma UpsertExact(t: Table, flows: seq<Flow>, f: Flow)
    requires Exact(t, flows)
    ensures Exact(Upsert(t, f), flows + [f])
  {
    var t', all := Upsert(t, f), flows + [f];
    forall k
      ensures k in t' <==> SamplesInto(all, k) > 0
      ensures k in t' ==> t'[k] == Row(RxInto(all, k), TxInto(all, k), SamplesInto(all, k))
    {
      IntoAppend(flows, [f], k);
      NoSamplesNoBytes(flows, k);
    }
  }

  lemma {:induction false} NoSamplesNoBytes(flows: seq<Flow>, k: RowKey)
    ensures SamplesInto(flows, k) == 0 ==> RxInto(flows, k) == 0 && TxInto(flows, k) == 0
    ensures SamplesInto(flows, k) > 0 ==> RxInto(flows, k) + TxInto(flows, k) > 0
  {
    if flows != [] {
      NoSamplesNoBytes(flows[1..], k);
    }
  }

  lemma {:induction false} UpsertAllExact(t: Table, saved: seq<Flow>, flows: seq<Flow>)
    requires Exact(t, saved)
    ensures Exact(UpsertAll(t, flows), saved + flows)
  {
    if flows == [] {
      assert saved + flows == saved;
    } else {
      var n := |flows| - 1;
      UpsertAllExact(t, saved, flows[..n]);
      UpsertExact(UpsertAll(t, flows[..n]), saved + flows[..n], flows[n]);
      assert saved + flows == saved + flows[..n] + [flows[n]];
    }
  }

  /**
   * After any sequence of saves, some of which failed, the table has a row exactly for the keys
   * hit by a committed non-empty flow, and the row holds their exact byte sums and their number.
   */
  lemma {:induction false} RowsAreExact(batches: seq<seq<Flow>>, commits: seq<bool>)
    requires |batches| == |commits|
    ensures Exact(Saves(batches, commits), Concat(Committed(batches, commits)))
  {
    if batches != [] {
      var n := |batches| - 1;
      RowsAreExact(batches[..n], commits[..n]);
      var done := Committed(batches[..n], commits[..n]);
      if commits[n] {
        UpsertAllExact(Saves(batches[..n], commits[..n]), Concat(done), batches[n]);
        assert (done + [batches[n]])[..|done|] == done;
      } else {
        assert done + [] == done;
      }
    }
  }

  // ---- totals ----

  function Bytes(r: Row, d: Direction): nat {
    if d == Rx then r.rx else r.tx
  }

  ghost function Column(t: Table, d: Direction): map<RowKey, int> {
    map k | k in t :: Bytes(t[k], d)
  }

  ghost function TableBytes(t: Table): int {
    Sum(Column(t, Rx)) + Sum(Column(t, Tx))
  }

  function RowBytes(k: RowKey, r: Row, sel: Tag -> bool): nat {
    TaggedBytes(k.pid, k.protocol, k.remoteIp, k.remotePort, r.rx, r.tx, sel)
  }

  ghost function TaggedColumn(t: Table, sel: Tag -> bool): map<RowKey, int> {
    map k | k in t :: RowBytes(k, t[k], sel)
  }

  ghost function StoredBytes(t: Table, sel: Tag -> bool): int {
    Sum(TaggedColumn(t, sel))
  }

  lemma UpsertBytes(t: Table, f: Flow, sel: Tag -> bool)
    ensures StoredBytes(Upsert(t, f), sel) == StoredBytes(t, sel) + BytesOf(f, sel)
  {
    if f.rx != 0 || f.tx != 0 {
      var k := KeyOf(f);
      var t' := Upsert(t, f);
      SumUpdate(TaggedColumn(t, sel), k, RowBytes(k, t'[k], sel));
      assert TaggedColumn(t', sel) == TaggedColumn(t, sel)[k := RowBytes(k, t'[k], sel) as int];
    }
  }

  /** Saving a batch moves its bytes into the table, each under its process, protocol, peer and direction. */
  lemma {:induction false} UpsertAllBytes(t: Table, flows: seq<Flow>, sel: Tag -> bool)
    ensures StoredBytes(UpsertAll(t, flows), sel) == StoredBytes(t, sel) + FlowBytes(flows, sel)
  {
    if flows != [] {
      var n := |flows| - 1;
      UpsertAllBytes(t, flows[..n], sel);
      UpsertBytes(UpsertAll(t, flows[..n]), flows[n], sel);
    }
  }

  /** The rows a prune keeps, and the rows it takes. */
  function KeptRows(t: Table, cutoff: nat): Table {
    map k | k in t && k.bucket >= cutoff :: t[k]
  }

  function PrunedRows(t: Table, cutoff: nat): Table {
    map k | k in t && k.bucket < cutoff :: t[k]
  }

  lemma PruneSplits(t: Table, cutoff: nat, sel: Tag -> bool)
    ensures StoredBytes(t, sel) == StoredBytes(KeptRows(t, cutoff), sel) + StoredBytes(PrunedRows(t, cutoff), sel)
  {
    var kept, gone := TaggedColumn(KeptRows(t, cutoff), sel), TaggedColumn(PrunedRows(t, cutoff), sel);
    assert TaggedColumn(t, sel) == kept + gone;
    SumSplit(kept, gone);
  }

  lemma StoredNonNegative(t: Table, sel: Tag -> bool)
    ensures StoredBytes(t, sel) >= 0
    ensures t == map[] ==> StoredBytes(t, sel) == 0
  {
    SumNonNegative(TaggedColumn(t, sel));
  }

  // ---- the three views ----

  datatype Selector = ByProcess(process: string) | ByGroup(group: string) | ByPid(pid: nat)

  predicate Matches(s: Selector, k: RowKey) {
    match s
    case ByProcess(process) => k.process == process
    case ByGroup(group) => k.group == group
    case ByPid(pid) => k.pid == pid
  }

  function Window(t: Table, from: nat, to: nat): Table {
    map k | k in t && from <= k.bucket <= to :: t[k]
  }

  function Selected(t: Table, from: nat, to: nat, s: Selector): Table {
    map k | k in Window(t, from, to) && Matches(s, k) :: t[k]
  }

  function UsageKey(grouping: GroupBy): RowKey -> string {
    (k: RowKey) => if grouping == PerProcess then k.process else k.group
  }

  function SelectorOf(grouping: GroupBy, name: string): Selector {
    if grouping == PerProcess then ByProcess(name) else ByGroup(name)
  }

  datatype Destination = Destination(remoteIp: RemoteIp, remotePort: nat, protocol: string)

  function DestinationOf(): RowKey -> Destination {
    (k: RowKey) => Destination(k.remoteIp, k.remotePort, k.protocol)
  }

  function PointTime(interval: nat): RowKey -> nat
    requires interval > 0
  {
    (k: RowKey) => k.bucket / interval * interval
  }

  ghost function Usage(t: Table, from: nat, to: nat, grouping: GroupBy, d: Direction): map<string, int> {
    GroupTotals(Column(Window(t, from, to), d), UsageKey(grouping))
  }

  ghost function Destinations(t: Table, from: nat, to: nat, s: Selector, d: Direction): map<Destination, int> {
    GroupTotals(Column(Selected(t, from, to, s), d), DestinationOf())
  }

  ghost function Timeline(t: Table, from: nat, to: nat, s: Selector, d: Direction): map<nat, int> {
    GroupTotals(Column(Selected(t, from, to, s), d), PointTime(Interval(from, to)))
  }

  /** The points of a timeline and the destinations of the same selection have equal totals. */
  lemma TimelineAgreesWithDestinations(t: Table, from: nat, to: nat, s: Selector, d: Direction)
    ensures Sum(Timeline(t, from, to, s, d)) == Sum(Destinations(t, from, to, s, d))
         == Sum(Column(Selected(t, from, to, s), d))
  {
    GroupTotalsSum(Column(Selected(t, from, to, s), d), PointTime(Interval(from, to)));
    GroupTotalsSum(Column(Selected(t, from, to, s), d), DestinationOf());
  }

  /** The usage row of one process or group shows that same total, and exists when there are rows. */
  lemma UsageAgreesWithDetail(t: Table, from: nat, to: nat, grouping: GroupBy, name: string, d: Direction)
    ensures name in Usage(t, from, to, grouping, d) <==> Selected(t, from, to, SelectorOf(grouping, name)) != map[]
    ensures name in Usage(t, from, to, grouping, d) ==>
      Usage(t, from, to, grouping, d)[name] == Sum(Timeline(t, from, to, SelectorOf(grouping, name), d))
  {
    var s := SelectorOf(grouping, name);
    var rows, selected := Column(Window(t, from, to), d), Selected(t, from, to, s);
    assert Members(rows, UsageKey(grouping), name) == Column(selected, d);
    TimelineAgreesWithDestinations(t, from, to, s, d);
    if selected != map[] {
      var k :| k in selected;
      assert k in rows && UsageKey(grouping)(k) == name;
    }
    if name in Usage(t, from, to, grouping, d) {
      var k :| k in rows && UsageKey(grouping)(k) == name;
      assert k in selected;
    }
  }

  /** The process listing and the group listing of a window have the same grand total. */
  lemma ListingsAgree(t: Table, from: nat, to: nat, d: Direction)
    ensures Sum(Usage(t, from, to, PerProcess, d)) == Sum(Usage(t, from, to, PerGroup, d))
  {
    GroupTotalsSum(Column(Window(t, from, to), d), UsageKey(PerProcess));
    GroupTotalsSum(Column(Window(t, from, to), d), UsageKey(PerGroup));
  }

  // ---- ORDER BY total DESC LIMIT n ----

  datatype Listed<G> = Listed(key: G, rx: int, tx: int)

  function Limit(requested: int): nat {
    if requested < 1 || requested > 1000 then 500 else requested
  }

  predicate DistinctKeys<G(==)>(rows: seq<Listed<G>>) {
    forall i, j :: 0 <= i < j < |rows| ==> rows[i].key != rows[j].key
  }

  predicate Descending<G>(rows: seq<Listed<G>>) {
    forall i, j :: 0 <= i < j < |rows| ==> rows[i].rx + rows[i].tx >= rows[j].rx + rows[j].tx
  }

  /** Every group left out is at most as large as every group listed. */
  ghost predicate OmitsSmallest<G(!new)>(all: map<G, int>, rows: seq<Listed<G>>) {
    forall g, r :: g in Omitted(all, rows) && r in rows ==> r.rx + r.tx >= all[g]
  }

  /** What the database may answer: the largest groups, each with its totals, at most `limit` of them. */
  ghost predicate Answers<G(!new)>(rx: map<G, int>, tx: map<G, int>, limit: nat, rows: seq<Listed<G>>) {
    && rx.Keys == tx.Keys
    && DistinctKeys(rows)
    && (forall r :: r in rows ==> r.key in rx && r.rx == rx[r.key] && r.tx == tx[r.key])
    && |rows| == (if |rx.Keys| <= limit then |rx.Keys| else limit)
    && Descending(rows)
    && OmitsSmallest(Both(rx, tx), rows)
  }

  ghost function ListedBytes<G>(rows: seq<Listed<G>>): int {
    if rows == [] then 0 else ListedBytes(rows[1..]) + rows[0].rx + rows[0].tx
  }

  ghost function Both<G>(rx: map<G, int>, tx: map<G, int>): map<G, int>
    requires rx.Keys == tx.Keys
  {
    map g | g in rx :: rx[g] + tx[g]
  }

  lemma {:induction false} SumBoth<G>(rx: map<G, int>, tx: map<G, int>)
    requires rx.Keys == tx.Keys
    ensures Sum(Both(rx, tx)) == Sum(rx) + Sum(tx)
    decreases |rx|
  {
    if rx != map[] {
      var g :| g in rx;
      RemoveShrinks(rx, g);
      SumBoth(rx - {g}, tx - {g});
      SumRemove(rx, g);
      SumRemove(tx, g);
      SumRemove(Both(rx, tx), g);
      assert Both(rx, tx) - {g} == Both(rx - {g}, tx - {g});
    }
  }

  ghost function ListedKeys<G>(rows: seq<Listed<G>>): set<G> {
    set r | r in rows :: r.key
  }

  ghost predicate TotalsFrom<G>(all: map<G, int>, rows: seq<Listed<G>>) {
    forall r :: r in rows ==> r.key in all && r.rx + r.tx == all[r.key]
  }

  lemma ListedHead<G>(all: map<G, int>, rows: seq<Listed<G>>)
    requires rows != [] && DistinctKeys(rows) && TotalsFrom(all, rows)
    ensures ListedKeys(rows) == {rows[0].key} + ListedKeys(rows[1..])
    ensures DistinctKeys(rows[1..]) && TotalsFrom(all - {rows[0].key}, rows[1..])
  {
    assert rows == [rows[0]] + rows[1..];
    forall r | r in rows[1..] ensures r.key != rows[0].key {
      var i :| 0 <= i < |rows[1..]| && rows[1..][i] == r;
      assert rows[i + 1] == r;
    }
  }

  ghost function Omitted<G>(all: map<G, int>, rows: seq<Listed<G>>): map<G, int> {
    map g | g in all && g !in ListedKeys(rows) :: all[g]
  }

  lemma OmittedHead<G>(all: map<G, int>, rows: seq<Listed<G>>)
    requires rows != [] && DistinctKeys(rows) && TotalsFrom(all, rows)
    ensures Omitted(all, rows) == Omitted(all - {rows[0].key}, rows[1..])
  {
    ListedHead(all, rows);
  }

  /** What a listing leaves out is the sum of the groups it does not name. */
  lemma {:induction false} ListedSum<G>(all: map<G, int>, rows: seq<Listed<G>>)
    requires DistinctKeys(rows) && TotalsFrom(all, rows)
    ensures ListedBytes(rows) + Sum(Omitted(all, rows)) == Sum(all)
  {
    if rows == [] {
      assert Omitted(all, rows) == all;
    } else {
      var r := rows[0];
      assert r in rows;
      ListedHead(all, rows);
      OmittedHead(all, rows);
      SumRemove(all, r.key);
      ListedSum(all - {r.key}, rows[1..]);
    }
  }

  lemma {:induction false} ListedKeysCount<G>(all: map<G, int>, rows: seq<Listed<G>>)
    requires DistinctKeys(rows) && TotalsFrom(all, rows)
    ensures |ListedKeys(rows)| == |rows|
  {
    if rows != [] {
      ListedHead(all, rows);
      ListedKeysCount(all - {rows[0].key}, rows[1..]);
      assert rows[0].key !in ListedKeys(rows[1..]);
    }
  }

  lemma NothingOmittedIff<G>(all: map<G, int>, rows: seq<Listed<G>>)
    requires DistinctKeys(rows) && TotalsFrom(all, rows)
    ensures Omitted(all, rows) == map[] <==> |rows| == |all.Keys|
  {
    ListedKeysCount(all, rows);
    var listed := ListedKeys(rows);
    assert listed <= all.Keys;
    assert |all.Keys - listed| == |all.Keys| - |listed|;
    assert Omitted(all, rows).Keys == all.Keys - listed;
  }

  /** Every stored row carries bytes, so no group of a reachable table is empty. */
  ghost predicate Positive(t: Table) {
    forall k :: k in t ==> t[k].rx + t[k].tx > 0
  }

  lemma ReachablePositive(batches: seq<seq<Flow>>, commits: seq<bool>)
    requires |batches| == |commits|
    ensures Positive(Saves(batches, commits))
  {
    RowsAreExact(batches, commits);
    forall k | k in Saves(batches, commits)
      ensures Saves(batches, commits)[k].rx + Saves(batches, commits)[k].tx > 0
    {
      NoSamplesNoBytes(Concat(Committed(batches, commits)), k);
    }
  }

  /** A group of rows that all carry bytes carries bytes. */
  lemma GroupPositive<G>(t: Table, group: RowKey -> G, g: G)
    requires Positive(t) && g in GroupKeys(t, group)
    ensures Sum(Members(Column(t, Rx), group, g)) + Sum(Members(Column(t, Tx), group, g)) > 0
  {
    var k :| k in t && group(k) == g;
    var rx, tx := Members(Column(t, Rx), group, g), Members(Column(t, Tx), group, g);
    SumNonNegative(rx);
    SumNonNegative(tx);
    assert k in rx && k in tx;
  }

  lemma {:induction false} SumPositive<G>(m: map<G, int>)
    requires m != map[] && forall g :: g in m ==> m[g] > 0
    ensures Sum(m) > 0
  {
    var g :| g in m;
    SumNonNegative(m);
  }

  lemma GroupsPositive<G>(w: Table, group: RowKey -> G)
    requires Positive(w)
    ensures var rx, tx := GroupTotals(Column(w, Rx), group), GroupTotals(Column(w, Tx), group);
            rx.Keys == tx.Keys == GroupKeys(w, group) && forall g :: g in rx ==> rx[g] + tx[g] > 0
  {
    forall d: Direction ensures GroupKeys(Column(w, d), group) == GroupKeys(w, group) {
    }
    forall g | g in GroupKeys(w, group)
      ensures Sum(Members(Column(w, Rx), group, g)) + Sum(Members(Column(w, Tx), group, g)) > 0
    {
      GroupPositive(w, group, g);
    }
  }

  lemma AnswersTotals<G(!new)>(rx: map<G, int>, tx: map<G, int>, limit: nat, rows: seq<Listed<G>>)
    requires Answers(rx, tx, limit, rows)
    ensures DistinctKeys(rows) && TotalsFrom(Both(rx, tx), rows)
    ensures Both(rx, tx).Keys == rx.Keys
    ensures |rows| == if |rx.Keys| <= limit then |rx.Keys| else limit
  {
  }

  lemma CompleteIff<G(!new)>(w: Table, group: RowKey -> G, limit: nat, rows: seq<Listed<G>>)
    requires Positive(w)
    requires Answers(GroupTotals(Column(w, Rx), group), GroupTotals(Column(w, Tx), group), limit, rows)
    ensures ListedBytes(rows) == TableBytes(w) <==> |GroupKeys(w, group)| <= limit
  {
    var rx, tx := GroupTotals(Column(w, Rx), group), GroupTotals(Column(w, Tx), group);
    AnswersTotals(rx, tx, limit, rows);
    GroupsPositive(w, group);
    GroupTotalsSum(Column(w, Rx), group);
    GroupTotalsSum(Column(w, Tx), group);
    SumBoth(rx, tx);
    ShortIffLimited(Both(rx, tx), limit, rows);
  }

  lemma ShortIffLimited<G>(all: map<G, int>, limit: nat, rows: seq<Listed<G>>)
    requires forall g :: g in all ==> all[g] > 0
    requires DistinctKeys(rows) && TotalsFrom(all, rows)
    requires |rows| == if |all.Keys| <= limit then |all.Keys| else limit
    ensures ListedBytes(rows) == Sum(all) <==> |all.Keys| <= limit
  {
    ListedSum(all, rows);
    NothingOmittedIff(all, rows);
    if |all.Keys| > limit {
      SumPositive(Omitted(all, rows));
    }
  }

  /**
   * A process or group listing shows every byte of its window if and only if the number of groups
   * is within the row limit; beyond it the answer is always short, whichever rows are chosen.
   */
  lemma ListingCompleteIffWithinLimit(t: Table, from: nat, to: nat, grouping: GroupBy, requested: int,
                                      rows: seq<Listed<string>>)
    requires Positive(t)
    requires Answers(Usage(t, from, to, grouping, Rx), Usage(t, from, to, grouping, Tx), Limit(requested), rows)
    ensures ListedBytes(rows) == TableBytes(Window(t, from, to))
       <==> |GroupKeys(Window(t, from, to), UsageKey(grouping))| <= Limit(requested)
  {
    CompleteIff(Window(t, from, to), UsageKey(grouping), Limit(requested), rows);
  }

  /** The destination listing matches the timeline of its selection under the same condition. */
  lemma DestinationsCompleteIffWithinLimit(t: Table, from: nat, to: nat, s: Selector, requested: int,
                                           rows: seq<Listed<Destination>>)
    requires Positive(t)
    requires Answers(Destinations(t, from, to, s, Rx), Destinations(t, from, to, s, Tx), Limit(requested), rows)
    ensures ListedBytes(rows) == Sum(Timeline(t, from, to, s, Rx)) + Sum(Timeline(t, from, to, s, Tx))
       <==> |GroupKeys(Selected(t, from, to, s), DestinationOf())| <= Limit(requested)
  {
    SelectedTimelineTotals(t, from, to, s);
    CompleteIff(Selected(t, from, to, s), DestinationOf(), Limit(requested), rows);
  }

  lemma SelectedTimelineTotals(t: Table, from: nat, to: nat, s: Selector)
    ensures Sum(Timeline(t, from, to, s, Rx)) + Sum(Timeline(t, from, to, s, Tx))
         == TableBytes(Selected(t, from, to, s))
  {
    GroupTotalsSum(Column(Selected(t, from, to, s), Rx), PointTime(Interval(from, to)));
    GroupTotalsSum(Column(Selected(t, from, to, s), Tx), PointTime(Interval(from, to)));
  }

  /** The flow table of the history database. */
  class FlowStore {
    var networkFlows: Table

    constructor ()
      ensures networkFlows == map[]
    {
      networkFlows := map[];
    }

    /** `fault` is the index of the statement the database refuses; the commit itself has index |flows|. */
    method SaveNetworkFlows(flows: seq<Flow>, fault: nat) returns (ok: bool)
      modifies this
      ensures ok <==> flows == [] || AllRun(flows, fault)
      ensures networkFlows == if ok then UpsertAll(old(networkFlows), flows) else old(networkFlows)
    {
      if flows == [] {
        return true;
      }
      var rows := networkFlows;
      for i := 0 to |flows|
        invariant rows == UpsertAll(old(networkFlows), flows[..i])
        invariant networkFlows == old(networkFlows)
        invariant forall j :: 0 <= j < i && j == fault ==> flows[j].rx == 0 && flows[j].tx == 0
      {
        assert flows[..i + 1][..i] == flows[..i];
        var f := flows[i];
        if f.rx == 0 && f.tx == 0 {
          continue;
        }
        if i == fault {
          return false;
        }
        var k := KeyOf(f);
        if k in rows {
          rows := rows[k := Row(rows[k].rx + f.rx, rows[k].tx + f.tx, rows[k].samples + 1)];
        } else {
          rows := rows[k := Row(f.rx, f.tx, 1)];
        }
      }
      assert flows[..|flows|] == flows;
      if fault == |flows| {
        return false;
      }
      networkFlows := rows;
      return true;
    }
  }

  /** No statement of the transaction is refused: an empty flow issues none. */
  predicate AllRun(flows: seq<Flow>, fault: nat) {
    fault != |flows| && (fault < |flows| ==> flows[fault].rx == 0 && flows[fault].tx == 0)
  }
}
