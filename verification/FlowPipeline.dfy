/**
 * The whole path of a byte: kernel map, single-flight drain, published batch, poll response,
 * deduplicated save. Every step is atomic and steps of different parties interleave freely.
 */
module FlowPipeline {
  import opened Sums
  import opened NetworkFlows
  import opened Wrappers
  import Bpf = BpfAccounting
  import History = NetworkHistory

  const SECOND: nat := 1_000_000_000

  /** The goroutine of refreshConnections. */
  datatype Refresh =
    | Idle
    | Scheduled
    | Draining(now: nat, byPid: map<nat, Process>, batch: seq<Flow>)

  /** Collector fields; lastNetwork 0 is Go's zero time. */
  datatype Agent = Agent(networkRefreshing: bool, lastNetwork: nat, networkFlows: seq<Flow>)

  datatype Monitor = Monitor(lastFlowPersist: nat, table: History.Table)

  /** `response` is a snapshot the monitor has asked for and not yet processed. */
  datatype State = State(
    kernel: Bpf.Kernel, agent: Agent, refresh: Refresh, response: Option<seq<Flow>>, monitor: Monitor,
    lastDrain: nat, saves: seq<seq<Flow>>)

  datatype Event =
    | Probe(e: Bpf.Event)
    | OtherSnapshot(now: nat)
    | Poll(now: nat)
    | Receive(ok: bool, historyOn: bool, commits: bool)
    | DrainBegin(now: nat, processes: seq<Process>)
    | DrainKey(key: Bpf.FlowKey)
    | RefreshDone(now: nat)
    | ForgetFlows
    | ResetMaps
    | Prune(cutoff: nat)
    | ClearTable

  function Init(cpus: nat): State {
    State(Bpf.Init(cpus), Agent(false, 0, []), Idle, None, Monitor(0, map[]), 0, [])
  }

  // ---- the steps of the two programs ----

  predicate RefreshDue(a: Agent, now: nat) {
    !a.networkRefreshing && (a.lastNetwork == 0 || now - a.lastNetwork >= SECOND)
  }

  function TakeSnapshot(s: State, now: nat): State {
    if RefreshDue(s.agent, now)
    then s.(agent := s.agent.(networkRefreshing := true), refresh := Scheduled)
    else s
  }

  /** The newest timestamp of a batch, 0 when it is empty. */
  function Newest(flows: seq<Flow>): nat {
    if flows == [] then 0
    else
      var newest := Newest(flows[..|flows| - 1]);
      var last := flows[|flows| - 1].timestamp;
      if last > newest then last else newest
  }

  predicate Saves(m: Monitor, flows: seq<Flow>, historyOn: bool, commits: bool) {
    historyOn && Newest(flows) > m.lastFlowPersist && commits
  }

  function Ingest(m: Monitor, flows: seq<Flow>, historyOn: bool, commits: bool): Monitor {
    if Saves(m, flows, historyOn, commits)
    then Monitor(Newest(flows), History.UpsertAll(m.table, flows))
    else m
  }

  /** Probes only enter and return, on an existing CPU and with a 64-bit buffer size. */
  predicate ProbeRuns(s: State, e: Bpf.Event) {
    Bpf.Allowed(s.kernel, e) && !e.DrainKey? && (e.Enter? ==> e.requested < Bpf.U64)
  }

  /** An event that is not enabled leaves the state alone. */
  function Next(s: State, ev: Event): State {
    match ev
    case Probe(e) =>
      if ProbeRuns(s, e) then s.(kernel := Bpf.Step(s.kernel, e)) else s
    case OtherSnapshot(now) => TakeSnapshot(s, now)
    case Poll(now) =>
      if s.response == None then TakeSnapshot(s, now).(response := Some(s.agent.networkFlows)) else s
    case Receive(ok, historyOn, commits) =>
      if s.response == None then s
      else if !ok then s.(response := None)
      else
        var flows := s.response.value;
        s.(response := None,
           monitor := Ingest(s.monitor, flows, historyOn, commits),
           saves := if Saves(s.monitor, flows, historyOn, commits) then s.saves + [flows] else s.saves)
    case DrainBegin(now, processes) =>
      if s.refresh == Scheduled && now > s.lastDrain
      then s.(refresh := Draining(now, Bpf.ByPid(processes), []), lastDrain := now)
      else s
    case DrainKey(key) =>
      if s.refresh.Draining? then
        s.(kernel := Bpf.TakeKey(s.kernel, key),
           refresh := s.refresh.(batch := s.refresh.batch + Bpf.FlowsOf(s.kernel, key, s.refresh.byPid, s.refresh.now)))
      else s
    case RefreshDone(now) =>
      if s.refresh.Draining?
      then s.(agent := Agent(false, now, s.refresh.batch), refresh := Idle)
      else s
    case ForgetFlows => s.(agent := s.agent.(networkFlows := []))
    case ResetMaps =>
      s.(kernel := Bpf.Init(|s.kernel.stats|))
    case Prune(cutoff) =>
      s.(monitor := s.monitor.(table := History.KeptRows(s.monitor.table, cutoff)))
    case ClearTable => s.(monitor := s.monitor.(table := map[]))
  }

  function Run(cpus: nat, es: seq<Event>): State {
    if es == [] then Init(cpus) else Next(Run(cpus, es[..|es| - 1]), es[|es| - 1])
  }

  // ---- invariant of every run ----

  predicate FromDrain(flows: seq<Flow>, time: nat) {
    forall f :: f in flows ==> f.timestamp == time
  }

  lemma {:induction false} NewestOfDrain(flows: seq<Flow>, time: nat)
    requires FromDrain(flows, time)
    ensures Newest(flows) == if flows == [] then 0 else time
  {
    if flows != [] {
      var n := |flows| - 1;
      forall f | f in flows[..n] ensures f.timestamp == time {
        assert f in flows;
      }
      NewestOfDrain(flows[..n], time);
      assert flows[n] in flows;
    }
  }

  /** A batch comes from one drain and, while another drain runs, from an earlier one. */
  predicate OneDrain(s: State, flows: seq<Flow>) {
    && FromDrain(flows, Newest(flows))
    && Newest(flows) <= s.lastDrain
    && (s.refresh.Draining? ==> Newest(flows) < s.refresh.now)
  }

  predicate SavesOrdered(saves: seq<seq<Flow>>, last: nat) {
    && (forall i :: 0 <= i < |saves| ==> 0 < Newest(saves[i]) <= last && FromDrain(saves[i], Newest(saves[i])))
    && (forall i, j :: 0 <= i < j < |saves| ==> Newest(saves[i]) < Newest(saves[j]))
  }

  predicate Inv(s: State) {
    && (s.agent.networkRefreshing <==> s.refresh != Idle)
    && (s.refresh.Draining? ==>
          s.refresh.now == s.lastDrain && 0 < s.refresh.now && FromDrain(s.refresh.batch, s.refresh.now))
    && OneDrain(s, s.agent.networkFlows)
    && (s.response.Some? ==> OneDrain(s, s.response.value))
    && s.monitor.lastFlowPersist <= s.lastDrain
    && (s.refresh.Draining? ==> s.monitor.lastFlowPersist < s.refresh.now)
    && SavesOrdered(s.saves, s.monitor.lastFlowPersist)
    && ResponseOlder(s)
  }

  /** A response that is no longer what is published is older than a non-empty published batch. */
  predicate ResponseOlder(s: State) {
    s.response.Some? && s.response.value != s.agent.networkFlows && s.agent.networkFlows != [] ==>
      Newest(s.response.value) < Newest(s.agent.networkFlows)
  }

  /** Steps that only touch the kernel maps, the table or the books cannot disturb the invariant. */
  lemma SameFlowsKeepInv(s: State, s': State)
    requires Inv(s)
    requires s' == s.(kernel := s'.kernel, monitor := s.monitor.(table := s'.monitor.table))
    ensures Inv(s')
  {
  }

  lemma DrainKeyKeepsInv(s: State, key: Bpf.FlowKey)
    requires Inv(s)
    ensures Inv(Next(s, DrainKey(key)))
  {
    if s.refresh.Draining? {
      var more := Bpf.FlowsOf(s.kernel, key, s.refresh.byPid, s.refresh.now);
      forall f | f in s.refresh.batch + more ensures f.timestamp == s.refresh.now {
        assert f in s.refresh.batch || f in more;
      }
    }
  }

  lemma ReceiveKeepsInv(s: State, ok: bool, historyOn: bool, commits: bool)
    requires Inv(s)
    ensures Inv(Next(s, Receive(ok, historyOn, commits)))
  {
  }

  lemma RefreshDoneKeepsInv(s: State, now: nat)
    requires Inv(s)
    ensures Inv(Next(s, RefreshDone(now)))
  {
    if s.refresh.Draining? {
      NewestOfDrain(s.refresh.batch, s.refresh.now);
    }
  }

  lemma SnapshotKeepsInv(s: State, now: nat)
    requires Inv(s)
    ensures Inv(TakeSnapshot(s, now))
  {
  }

  lemma NextKeepsInv(s: State, ev: Event)
    requires Inv(s)
    ensures Inv(Next(s, ev))
  {
    match ev
    case Probe(e) => SameFlowsKeepInv(s, Next(s, ev));
    case OtherSnapshot(now) => SnapshotKeepsInv(s, now);
    case Poll(now) => SnapshotKeepsInv(s, now);
    case Receive(ok, historyOn, commits) => ReceiveKeepsInv(s, ok, historyOn, commits);
    case DrainBegin(now, processes) =>
    case DrainKey(key) => DrainKeyKeepsInv(s, key);
    case RefreshDone(now) => RefreshDoneKeepsInv(s, now);
    case ForgetFlows =>
    case ResetMaps => SameFlowsKeepInv(s, Next(s, ev));
    case Prune(cutoff) => SameFlowsKeepInv(s, Next(s, ev));
    case ClearTable => SameFlowsKeepInv(s, Next(s, ev));
  }

  lemma {:induction false} RunKeepsInv(cpus: nat, es: seq<Event>)
    ensures Inv(Run(cpus, es))
  {
    if es != [] {
      RunKeepsInv(cpus, es[..|es| - 1]);
      NextKeepsInv(Run(cpus, es[..|es| - 1]), es[|es| - 1]);
    }
  }

  /**
   * Exactly once: in every run, whatever fails, is toggled, reset or asked by others, two saved
   * batches never share a drain, so no drained batch reaches the table twice.
   */
  lemma NoBatchSavedTwice(cpus: nat, es: seq<Event>, i: nat, j: nat)
    requires i < j < |Run(cpus, es).saves|
    ensures var saves := Run(cpus, es).saves;
            saves[i] != saves[j] && forall f, g :: f in saves[i] && g in saves[j] ==> f.timestamp < g.timestamp
  {
    RunKeepsInv(cpus, es);
  }

  /** Unless history is pruned or cleared, the table rows are the exact sums of the saved batches. */
  lemma {:induction false} TableHoldsSaves(cpus: nat, es: seq<Event>)
    requires forall ev :: ev in es ==> !ev.Prune? && !ev.ClearTable?
    ensures History.Exact(Run(cpus, es).monitor.table, History.Concat(Run(cpus, es).saves))
  {
    if es != [] {
      var n := |es| - 1;
      var s := Run(cpus, es[..n]);
      TableHoldsSaves(cpus, es[..n]);
      if es[n].Receive? && s.response.Some? && Run(cpus, es).saves != s.saves {
        assert (s.saves + [s.response.value])[..|s.saves|] == s.saves;
        History.UpsertAllExact(s.monitor.table, History.Concat(s.saves), s.response.value);
      }
    }
  }

  /** Single flight: at most one refresh is under way, and the flag says exactly whether one is. */
  lemma SingleFlight(cpus: nat, es: seq<Event>, now: nat)
    ensures var s := Run(cpus, es);
            TakeSnapshot(s, now).refresh != s.refresh ==> s.refresh == Idle
  {
    RunKeepsInv(cpus, es);
  }

  // ---- conservation ----

  function Unsaved(s: State, flows: seq<Flow>, sel: Tag -> bool): nat {
    if Newest(flows) > s.monitor.lastFlowPersist then FlowBytes(flows, sel) else 0
  }

  /** Bytes being drained, published but unsaved, or in a response that is still on its way. */
  function Held(s: State, sel: Tag -> bool): nat {
    (if s.refresh.Draining? then FlowBytes(s.refresh.batch, sel) else 0)
    + Unsaved(s, s.agent.networkFlows, sel)
    + (if s.response.Some? && s.response.value != s.agent.networkFlows then Unsaved(s, s.response.value, sel) else 0)
  }

  /** What the probes have accepted, and lost to a full flow map, for the selected tags. */
  function Booked(cpus: nat, es: seq<Event>, sel: Tag -> bool): Bpf.Books {
    if es == [] then Bpf.Books(0, 0, 0, 0)
    else
      var n := |es| - 1;
      Record(Booked(cpus, es[..n], sel), Run(cpus, es[..n]), es[n], sel)
  }

  function Record(b: Bpf.Books, s: State, ev: Event, sel: Tag -> bool): Bpf.Books {
    if ev.Probe? && ProbeRuns(s, ev.e) then Bpf.Record(b, s.kernel, ev.e, Bpf.Lift(sel)) else b
  }

  /** The published batch is unsaved and in nobody's hands but the agent's. */
  predicate Exposed(s: State) {
    s.response != Some(s.agent.networkFlows)
  }

  /**
   * The bytes a step discards: an unsaved batch that is overwritten or forgotten while it is not being
   * delivered, a delivered one that is not saved and no longer published, and what is reset or deleted.
   */
  ghost function GoneIn(s: State, ev: Event, sel: Tag -> bool): int {
    match ev
    case RefreshDone(_) =>
      if s.refresh.Draining? && Exposed(s) then Unsaved(s, s.agent.networkFlows, sel) else 0
    case ForgetFlows => if Exposed(s) then Unsaved(s, s.agent.networkFlows, sel) else 0
    case Receive(ok, historyOn, commits) =>
      if s.response.Some? && Exposed(s) && !(ok && Saves(s.monitor, s.response.value, historyOn, commits))
      then Unsaved(s, s.response.value, sel) else 0
    case ResetMaps => Bpf.FlowTotal(s.kernel, Bpf.Lift(sel))
    case Prune(cutoff) => History.StoredBytes(History.PrunedRows(s.monitor.table, cutoff), sel)
    case ClearTable => History.StoredBytes(s.monitor.table, sel)
    case _ => 0
  }

  ghost function Gone(cpus: nat, es: seq<Event>, sel: Tag -> bool): int {
    if es == [] then 0
    else Gone(cpus, es[..|es| - 1], sel) + GoneIn(Run(cpus, es[..|es| - 1]), es[|es| - 1], sel)
  }

  ghost predicate Balanced(s: State, b: Bpf.Books, gone: int, sel: Tag -> bool) {
    Bpf.FlowTotal(s.kernel, Bpf.Lift(sel)) + b.lost + Held(s, sel)
      + History.StoredBytes(s.monitor.table, sel) + gone + Bpf.U64 * b.wraps == b.accepted
  }

  lemma EmptyMapsHoldNothing(sel: Tag -> bool)
    ensures Bpf.FlowColumn(map[], Bpf.Lift(sel)) == map[] && Sum(Bpf.FlowColumn(map[], Bpf.Lift(sel))) == 0
    ensures History.StoredBytes(map[], sel) == 0
  {
    assert Bpf.FlowColumn(map[], Bpf.Lift(sel)) == map[];
    History.StoredNonNegative(map[], sel);
  }

  lemma ProbeStep(s: State, e: Bpf.Event, b: Bpf.Books, gone: int, sel: Tag -> bool)
    requires Bpf.WellFormed(s.kernel) && Balanced(s, b, gone, sel)
    ensures Balanced(Next(s, Probe(e)), Record(b, s, Probe(e), sel), gone, sel)
  {
    if ProbeRuns(s, e) {
      Bpf.StepTotal(s.kernel, e, Bpf.Lift(sel));
    }
  }

  lemma DrainKeyStep(s: State, key: Bpf.FlowKey, b: Bpf.Books, gone: int, sel: Tag -> bool)
    requires Balanced(s, b, gone, sel)
    ensures Balanced(Next(s, DrainKey(key)), b, gone, sel)
  {
    if s.refresh.Draining? {
      var more := Bpf.FlowsOf(s.kernel, key, s.refresh.byPid, s.refresh.now);
      Bpf.TakeKeyTotal(s.kernel, key, Bpf.Lift(sel));
      Bpf.FlowsOfBytes(s.kernel, key, s.refresh.byPid, s.refresh.now, sel);
      FlowBytesAppend(s.refresh.batch, more, sel);
    }
  }

  lemma SaveStep(s: State, ev: Event, b: Bpf.Books, gone: int, sel: Tag -> bool)
    requires ev.Receive? && Inv(s) && Balanced(s, b, gone, sel) && s.response.Some?
    requires ev.ok && Saves(s.monitor, s.response.value, ev.historyOn, ev.commits)
    ensures Balanced(Next(s, ev), b, gone, sel)
  {
    History.UpsertAllBytes(s.monitor.table, s.response.value, sel);
  }

  lemma ReceiveStep(s: State, ev: Event, b: Bpf.Books, gone: int, sel: Tag -> bool)
    requires ev.Receive? && Inv(s) && Balanced(s, b, gone, sel)
    ensures Balanced(Next(s, ev), b, gone + GoneIn(s, ev, sel), sel)
  {
    if s.response.Some? && ev.ok && Saves(s.monitor, s.response.value, ev.historyOn, ev.commits) {
      SaveStep(s, ev, b, gone, sel);
    }
  }

  lemma RefreshDoneStep(s: State, ev: Event, b: Bpf.Books, gone: int, sel: Tag -> bool)
    requires ev.RefreshDone? && Inv(s) && Balanced(s, b, gone, sel)
    ensures Balanced(Next(s, ev), b, gone + GoneIn(s, ev, sel), sel)
  {
    if s.refresh.Draining? {
      NewestOfDrain(s.refresh.batch, s.refresh.now);
    }
  }

  lemma NothingUnsavedInNothing(s: State, sel: Tag -> bool)
    ensures Unsaved(s, [], sel) == 0
  {
  }

  lemma ForgetStep(s: State, b: Bpf.Books, gone: int, sel: Tag -> bool)
    requires Balanced(s, b, gone, sel)
    ensures Balanced(Next(s, ForgetFlows), b, gone + GoneIn(s, ForgetFlows, sel), sel)
  {
    NothingUnsavedInNothing(s, sel);
    NothingUnsavedInNothing(Next(s, ForgetFlows), sel);
  }

  /** Asking for a snapshot or beginning a drain moves no bytes. */
  lemma AgentStep(s: State, ev: Event, b: Bpf.Books, gone: int, sel: Tag -> bool)
    requires ev.Poll? || ev.OtherSnapshot? || ev.DrainBegin?
    requires Inv(s) && Balanced(s, b, gone, sel)
    ensures Balanced(Next(s, ev), b, gone, sel)
  {
    assert FlowBytes([], sel) == 0;
  }

  lemma DeleteStep(s: State, ev: Event, b: Bpf.Books, gone: int, sel: Tag -> bool)
    requires ev.ResetMaps? || ev.Prune? || ev.ClearTable?
    requires Balanced(s, b, gone, sel)
    ensures Balanced(Next(s, ev), b, gone + GoneIn(s, ev, sel), sel)
  {
    EmptyMapsHoldNothing(sel);
    if ev.Prune? {
      History.PruneSplits(s.monitor.table, ev.cutoff, sel);
    }
  }

  lemma StepBalanced(s: State, ev: Event, b: Bpf.Books, gone: int, sel: Tag -> bool)
    requires Bpf.WellFormed(s.kernel) && Inv(s) && Balanced(s, b, gone, sel)
    ensures Balanced(Next(s, ev), Record(b, s, ev, sel), gone + GoneIn(s, ev, sel), sel)
  {
    match ev
    case Probe(e) => ProbeStep(s, e, b, gone, sel);
    case DrainKey(key) => DrainKeyStep(s, key, b, gone, sel);
    case Receive(_, _, _) => ReceiveStep(s, ev, b, gone, sel);
    case RefreshDone(_) => RefreshDoneStep(s, ev, b, gone, sel);
    case ForgetFlows => ForgetStep(s, b, gone, sel);
    case ResetMaps => DeleteStep(s, ev, b, gone, sel);
    case Prune(_) => DeleteStep(s, ev, b, gone, sel);
    case ClearTable => DeleteStep(s, ev, b, gone, sel);
    case _ => AgentStep(s, ev, b, gone, sel);
  }

  lemma StepKeepsWellFormed(s: State, ev: Event)
    requires Bpf.WellFormed(s.kernel)
    ensures Bpf.WellFormed(Next(s, ev).kernel)
  {
    if ev.Probe? && ProbeRuns(s, ev.e) {
      Bpf.StepKeepsWellFormed(s.kernel, ev.e);
    } else if ev.DrainKey? {
      Bpf.StepKeepsWellFormed(s.kernel, Bpf.DrainKey(ev.key));
    }
  }

  lemma {:induction false} RunWellFormed(cpus: nat, es: seq<Event>)
    ensures Bpf.WellFormed(Run(cpus, es).kernel)
  {
    if es != [] {
      RunWellFormed(cpus, es[..|es| - 1]);
      StepKeepsWellFormed(Run(cpus, es[..|es| - 1]), es[|es| - 1]);
    }
  }

  /**
   * Conservation, end to end: at every step of every run, and separately for every process, protocol,
   * remote address, port and direction, each accepted byte is in the flow map, was turned away by a full map, is
   * in a batch being drained, published or delivered, is in the history table, or was discarded by one of
   * the steps that `GoneIn` names.
   */
  lemma {:induction false} EveryByteAccountedFor(cpus: nat, es: seq<Event>, sel: Tag -> bool)
    ensures Balanced(Run(cpus, es), Booked(cpus, es, sel), Gone(cpus, es, sel), sel)
  {
    if es == [] {
      EmptyMapsHoldNothing(sel);
    } else {
      var n := |es| - 1;
      EveryByteAccountedFor(cpus, es[..n], sel);
      RunKeepsInv(cpus, es[..n]);
      RunWellFormed(cpus, es[..n]);
      StepBalanced(Run(cpus, es[..n]), es[n], Booked(cpus, es[..n], sel), Gone(cpus, es[..n], sel), sel);
    }
  }

  lemma GoneInNonNegative(s: State, ev: Event, sel: Tag -> bool)
    ensures GoneIn(s, ev, sel) >= 0
  {
    match ev
    case ResetMaps => SumNonNegative(Bpf.FlowColumn(s.kernel.flows, Bpf.Lift(sel)));
    case Prune(cutoff) => History.StoredNonNegative(History.PrunedRows(s.monitor.table, cutoff), sel);
    case ClearTable => History.StoredNonNegative(s.monitor.table, sel);
    case _ =>
  }

  ghost predicate NothingDiscarded(cpus: nat, es: seq<Event>, sel: Tag -> bool) {
    es == [] ||
    (NothingDiscarded(cpus, es[..|es| - 1], sel) && GoneIn(Run(cpus, es[..|es| - 1]), es[|es| - 1], sel) == 0)
  }

  lemma {:induction false} GoneIff(cpus: nat, es: seq<Event>, sel: Tag -> bool)
    ensures Gone(cpus, es, sel) >= 0
    ensures Gone(cpus, es, sel) == 0 <==> NothingDiscarded(cpus, es, sel)
  {
    if es != [] {
      var n := |es| - 1;
      GoneIff(cpus, es[..n], sel);
      GoneInNonNegative(Run(cpus, es[..n]), es[n], sel);
    }
  }

  /** All accepted bytes are still somewhere if and only if no step of the run discarded any. */
  lemma NothingLostIff(cpus: nat, es: seq<Event>, sel: Tag -> bool)
    ensures Balanced(Run(cpus, es), Booked(cpus, es, sel), 0, sel) <==> NothingDiscarded(cpus, es, sel)
  {
    EveryByteAccountedFor(cpus, es, sel);
    GoneIff(cpus, es, sel);
  }

  // ---- runs that discard nothing ----

  /** History stays on, the monitor alone polls, nothing fails, and nothing is reset, pruned or cleared. */
  predicate Undisturbed(ev: Event) {
    match ev
    case Receive(ok, historyOn, commits) => ok && historyOn && commits
    case OtherSnapshot(_) => false
    case ForgetFlows => false
    case ResetMaps => false
    case Prune(_) => false
    case ClearTable => false
    case _ => true
  }

  predicate Settled(s: State, flows: seq<Flow>) {
    flows == [] || Newest(flows) <= s.monitor.lastFlowPersist
  }

  /** A refresh only runs once the batch it will overwrite is saved or is being delivered. */
  predicate Covered(s: State) {
    && (s.refresh != Idle ==> Settled(s, s.agent.networkFlows) || !Exposed(s))
    && (s.response.Some? && s.response.value != s.agent.networkFlows ==> s.refresh == Idle)
  }

  lemma UndisturbedStep(s: State, ev: Event, sel: Tag -> bool)
    requires Undisturbed(ev) && Inv(s) && Covered(s)
    ensures Covered(Next(s, ev)) && GoneIn(s, ev, sel) == 0
  {
  }

  /** An undisturbed run discards nothing, so every accepted byte is in one of the four places. */
  lemma {:induction false} UndisturbedLosesNothing(cpus: nat, es: seq<Event>, sel: Tag -> bool)
    requires forall ev :: ev in es ==> Undisturbed(ev)
    ensures Covered(Run(cpus, es)) && NothingDiscarded(cpus, es, sel)
    ensures Balanced(Run(cpus, es), Booked(cpus, es, sel), 0, sel)
  {
    NothingLostIff(cpus, es, sel);
    if es != [] {
      var n := |es| - 1;
      UndisturbedLosesNothing(cpus, es[..n], sel);
      RunKeepsInv(cpus, es[..n]);
      UndisturbedStep(Run(cpus, es[..n]), es[n], sel);
    }
  }

  function AllTags(): Tag -> bool {
    (t: Tag) => true
  }

  function DropWrapCount(cpus: nat, es: seq<Event>): nat {
    if es == [] then 0
    else
      var n := |es| - 1;
      DropWrapCount(cpus, es[..n]) + if DropWraps(Run(cpus, es[..n]), es[n]) then 1 else 0
  }

  predicate DropWraps(s: State, ev: Event) {
    ev.Probe? && ProbeRuns(s, ev.e) && Bpf.DropWraps(s.kernel, ev.e)
  }

  lemma DroppedStep(s: State, ev: Event, b: Bpf.Books)
    requires !ev.ResetMaps? && Bpf.WellFormed(s.kernel)
    ensures Bpf.DroppedTotal(Next(s, ev).kernel.stats) + (if DropWraps(s, ev) then Bpf.U64 else 0)
         == Bpf.DroppedTotal(s.kernel.stats) + Record(b, s, ev, AllTags()).lost - b.lost
  {
    if ev.Probe? && ProbeRuns(s, ev.e) {
      Bpf.StepDropped(s.kernel, ev.e);
    }
  }

  /** Between resets, whatever else happens, the drop counter in snapshots is what the full map turned away. */
  lemma {:induction false} ReportedDropsAreLost(cpus: nat, es: seq<Event>)
    requires ResetMaps !in es
    ensures Bpf.DroppedTotal(Run(cpus, es).kernel.stats) + Bpf.U64 * DropWrapCount(cpus, es)
         == Booked(cpus, es, AllTags()).lost
  {
    if es == [] {
      Bpf.ZeroStats(cpus);
    } else {
      var n := |es| - 1;
      ReportedDropsAreLost(cpus, es[..n]);
      RunWellFormed(cpus, es[..n]);
      DroppedStep(Run(cpus, es[..n]), es[n], Booked(cpus, es[..n], AllTags()));
    }
  }

  ghost function VisibleBytes(s: State): int {
    Bpf.FlowTotal(s.kernel, Bpf.Lift(AllTags())) + Bpf.DroppedTotal(s.kernel.stats)
    + Held(s, AllTags()) + History.StoredBytes(s.monitor.table, AllTags())
  }

  lemma PlacesNonNegative(s: State, sel: Tag -> bool)
    ensures Bpf.FlowTotal(s.kernel, Bpf.Lift(sel)) >= 0 && History.StoredBytes(s.monitor.table, sel) >= 0
  {
    SumNonNegative(Bpf.FlowColumn(s.kernel.flows, Bpf.Lift(sel)));
    History.StoredNonNegative(s.monitor.table, sel);
  }

  /** Below 2^64 accepted bytes no selected flow counter and no drop counter can have wrapped. */
  lemma NoWraps(s: State, b: Bpf.Books, sel: Tag -> bool, dropped: nat, dropWraps: nat)
    requires Balanced(s, b, 0, sel) && b.accepted < Bpf.U64 && dropped + Bpf.U64 * dropWraps == b.lost
    ensures Bpf.FlowTotal(s.kernel, Bpf.Lift(sel)) + dropped + Held(s, sel) + History.StoredBytes(s.monitor.table, sel)
         == b.accepted
  {
    PlacesNonNegative(s, sel);
    Bpf.NoWholeWord(b.wraps, b.accepted);
    Bpf.NoWholeWord(dropWraps, b.accepted);
  }

  /**
   * The balance in visible quantities: below 2^64 accepted bytes, accepted = flow map + reported
   * drops + held batches + stored history, at every step of a run without resets that discards nothing.
   */
  lemma VisibleBalance(cpus: nat, es: seq<Event>)
    requires NothingDiscarded(cpus, es, AllTags()) && ResetMaps !in es
    requires Booked(cpus, es, AllTags()).accepted < Bpf.U64
    ensures VisibleBytes(Run(cpus, es)) == Booked(cpus, es, AllTags()).accepted
  {
    NothingLostIff(cpus, es, AllTags());
    ReportedDropsAreLost(cpus, es);
    NoWraps(Run(cpus, es), Booked(cpus, es, AllTags()), AllTags(),
            Bpf.DroppedTotal(Run(cpus, es).kernel.stats), DropWrapCount(cpus, es));
  }

  /**
   * Where bytes can be lost: completing a refresh keeps what is held if and only if the batch it
   * overwrites has no unsaved bytes or is the one being delivered. Otherwise exactly that batch is lost.
   */
  lemma RefreshLosesIff(s: State, now: nat, sel: Tag -> bool)
    requires Inv(s) && s.refresh.Draining?
    ensures Held(Next(s, RefreshDone(now)), sel) == Held(s, sel)
       <==> Unsaved(s, s.agent.networkFlows, sel) == 0 || s.response == Some(s.agent.networkFlows)
    ensures s.response != Some(s.agent.networkFlows) ==>
              Held(Next(s, RefreshDone(now)), sel) == Held(s, sel) - Unsaved(s, s.agent.networkFlows, sel)
  {
    NewestOfDrain(s.refresh.batch, s.refresh.now);
  }

  lemma Unroll(cpus: nat, es: seq<Event>, ev: Event)
    ensures Run(cpus, es + [ev]) == Next(Run(cpus, es), ev)
    ensures forall sel :: Gone(cpus, es + [ev], sel) == Gone(cpus, es, sel) + GoneIn(Run(cpus, es), ev, sel)
  {
    assert (es + [ev])[..|es|] == es;
  }

  /**
   * After any run, if the monitor fetches nothing while a snapshot for others starts the next refresh,
   * completing that refresh discards exactly the unsaved bytes of the published batch.
   */
  lemma UnfetchedBatchIsDiscarded(cpus: nat, es: seq<Event>, asked: nat, drain: nat, done: nat, sel: Tag -> bool)
    requires Run(cpus, es).refresh == Idle && Run(cpus, es).response == None
    requires RefreshDue(Run(cpus, es).agent, asked) && drain > Run(cpus, es).lastDrain
    ensures var more := es + [OtherSnapshot(asked)] + [DrainBegin(drain, [])] + [RefreshDone(done)];
            Gone(cpus, more, sel) == Gone(cpus, es, sel) + Unsaved(Run(cpus, es), Run(cpus, es).agent.networkFlows, sel)
  {
    Unroll(cpus, es, OtherSnapshot(asked));
    Unroll(cpus, es + [OtherSnapshot(asked)], DrainBegin(drain, []));
    Unroll(cpus, es + [OtherSnapshot(asked)] + [DrainBegin(drain, [])], RefreshDone(done));
  }

  lemma OneSendStored(s: State, n: nat, view: Bpf.SocketView, comm: string, key: Bpf.FlowKey)
    requires s.kernel == Bpf.Init(1) && 0 < n < Bpf.U64
    requires key == Bpf.KeyOf(Bpf.Inflight(n, 0, Tx, 6), view, comm)
    ensures Next(Next(s, Probe(Bpf.Enter(0, n, Tx, 6))), Probe(Bpf.Exit(0, 0, n, view, comm)))
         == s.(kernel := s.kernel.(flows := map[key := Bpf.FlowValue(0, n)]))
  {
    Bpf.CallAndReturn(s.kernel, 0, 0, n, Tx, 6, view, comm, key);
  }

  lemma OneKeyPublished(s: State, n: nat, key: Bpf.FlowKey)
    requires s == Init(1).(kernel := Init(1).kernel.(flows := map[key := Bpf.FlowValue(0, n)])) && n > 0
    ensures var s' := Next(Next(Next(Next(s, OtherSnapshot(1)), DrainBegin(1, [])), DrainKey(key)), RefreshDone(1));
            && s'.refresh == Idle && s'.response == None && s'.lastDrain == 1 && s'.monitor == s.monitor
            && s'.agent == Agent(false, 1, [Bpf.FlowOf(key, Bpf.FlowValue(0, n), map[], 1)])
  {
    var s2 := Next(Next(s, OtherSnapshot(1)), DrainBegin(1, []));
    assert s2.refresh == Draining(1, map[], []);
    var f := Bpf.FlowOf(key, Bpf.FlowValue(0, n), map[], 1);
    assert Bpf.FlowsOf(s2.kernel, key, map[], 1) == [f];
    assert Next(s2, DrainKey(key)).refresh == Draining(1, map[], [f]);
  }

  /** Such a run: n bytes are sent, drained and published, and a second refresh completes before any poll. */
  lemma BytesLostInARun(n: nat, view: Bpf.SocketView, comm: string, key: Bpf.FlowKey)
    requires 0 < n < Bpf.U64 && key == Bpf.KeyOf(Bpf.Inflight(n, 0, Tx, 6), view, comm)
    ensures var sent := [] + [Probe(Bpf.Enter(0, n, Tx, 6))] + [Probe(Bpf.Exit(0, 0, n, view, comm))];
            var published := sent + [OtherSnapshot(1)] + [DrainBegin(1, [])] + [DrainKey(key)] + [RefreshDone(1)];
            Gone(1, published + [OtherSnapshot(SECOND + 1)] + [DrainBegin(2, [])] + [RefreshDone(2)], AllTags()) >= n
  {
    var e0, e1 := Probe(Bpf.Enter(0, n, Tx, 6)), Probe(Bpf.Exit(0, 0, n, view, comm));
    var sent := [] + [e0] + [e1];
    Unroll(1, [], e0);
    Unroll(1, [] + [e0], e1);
    OneSendStored(Run(1, []), n, view, comm, key);
    Unroll(1, sent, OtherSnapshot(1));
    Unroll(1, sent + [OtherSnapshot(1)], DrainBegin(1, []));
    Unroll(1, sent + [OtherSnapshot(1)] + [DrainBegin(1, [])], DrainKey(key));
    Unroll(1, sent + [OtherSnapshot(1)] + [DrainBegin(1, [])] + [DrainKey(key)], RefreshDone(1));
    OneKeyPublished(Run(1, sent), n, key);
    var published := sent + [OtherSnapshot(1)] + [DrainBegin(1, [])] + [DrainKey(key)] + [RefreshDone(1)];
    PublishedCounts(Run(1, published), Bpf.FlowOf(key, Bpf.FlowValue(0, n), map[], 1));
    GoneIff(1, published, AllTags());
    UnfetchedBatchIsDiscarded(1, published, SECOND + 1, 2, 2, AllTags());
  }

  lemma PublishedCounts(s: State, f: Flow)
    requires f.timestamp > s.monitor.lastFlowPersist
    ensures Unsaved(s, [f], AllTags()) == f.rx + f.tx
  {
    assert [f][..0] == [];
    assert FlowBytes([f], AllTags()) == FlowBytes([], AllTags()) + BytesOf(f, AllTags());
  }

  // ---- the fields as the two programs update them ----

  class Collector {
    var networkRefreshing: bool
    var lastNetwork: nat
    var networkFlows: seq<Flow>

    function View(): Agent
      reads this
    {
      Agent(networkRefreshing, lastNetwork, networkFlows)
    }

    constructor ()
      ensures View() == Init(0).agent
    {
      networkRefreshing, lastNetwork, networkFlows := false, 0, [];
    }

    /** `started` tells whether this snapshot launched a refresh. */
    method Snapshot(now: nat) returns (flows: seq<Flow>, started: bool)
      modifies this`networkRefreshing
      ensures started <==> RefreshDue(old(View()), now)
      ensures View() == old(View()).(networkRefreshing := old(networkRefreshing) || started)
      ensures flows == old(networkFlows)
    {
      started := false;
      if !networkRefreshing && (lastNetwork == 0 || now - lastNetwork >= SECOND) {
        networkRefreshing := true;
        started := true;
      }
      flows := networkFlows;
    }

    /** refreshConnections with the eBPF tracker, from the drain to the publication. */
    method RefreshConnections(tracker: Bpf.BpfTracker, visited: seq<Bpf.FlowKey>, processes: seq<Process>,
                              drainTime: nat, doneTime: nat)
      modifies this, tracker`flows
      ensures View() == Agent(false, doneTime,
                Bpf.DrainedFlows(old(tracker.View()), visited, Bpf.ByPid(processes), drainTime))
      ensures tracker.View() == Bpf.TakeKeys(old(tracker.View()), visited)
    {
      var flows := tracker.Drain(visited, processes, drainTime);
      networkFlows := flows;
      lastNetwork := doneTime;
      networkRefreshing := false;
    }

    method ResetNetworkAccounting(tracker: Bpf.BpfTracker)
      modifies this`networkFlows, tracker, tracker.stats
      ensures View() == old(View()).(networkFlows := [])
      ensures tracker.View() == Bpf.Init(tracker.stats.Length)
    {
      networkFlows := [];
      tracker.Reset();
    }
  }

  /** The part of the monitor's collect that persists flows. */
  class FlowIngest {
    var lastFlowPersist: nat
    const store: History.FlowStore

    ghost function View(): Monitor
      reads this, store
    {
      Monitor(lastFlowPersist, store.networkFlows)
    }

    constructor (store: History.FlowStore)
      ensures this.store == store && lastFlowPersist == 0
    {
      this.store := store;
      lastFlowPersist := 0;
    }

    method Collect(flows: seq<Flow>, historyEnabled: bool, fault: nat)
      modifies this, store
      ensures View() == Ingest(old(View()), flows, historyEnabled, History.AllRun(flows, fault))
    {
      var newest := 0;
      for i := 0 to |flows|
        invariant newest == Newest(flows[..i])
      {
        assert flows[..i + 1][..i] == flows[..i];
        if flows[i].timestamp > newest {
          newest := flows[i].timestamp;
        }
      }
      assert flows[..|flows|] == flows;
      if historyEnabled && newest > lastFlowPersist {
        var ok := store.SaveNetworkFlows(flows, fault);
        if ok {
          lastFlowPersist := newest;
        }
      }
    }
  }
}
