/**
 * The kernel half of byte accounting: probes remember a call on entry and add its
 * return value to a bounded flow map, or to a per-CPU drop counter, on return.
 */
module BpfAccounting {
  import opened Sums
  import opened NetworkFlows

  const MAX_CALLS: nat := 32768
  const MAX_FLOWS: nat := 262144
  const U64: nat := 0x1_0000_0000_0000_0000
  const AF_INET: nat := 2
  const AF_INET6: nat := 10
  const IPPROTO_UDP: nat := 17

  datatype Inflight = Inflight(requested: nat, pid: nat, direction: Direction, protocol: nat)

  /** The fields of the socket as the return probe happens to read them. */
  datatype SocketView = SocketView(family: nat, remotePort: nat, v4: seq<nat>, v6: seq<nat>)

  datatype FlowKey = FlowKey(
    pid: nat, family: nat, protocol: nat, remotePort: nat, remoteAddr: seq<nat>, comm: string)

  datatype FlowValue = FlowValue(rx: nat, tx: nat)

  datatype Stats = Stats(droppedEvents: nat, droppedBytes: nat)

  datatype Kernel = Kernel(calls: map<nat, Inflight>, flows: map<FlowKey, FlowValue>, stats: seq<Stats>)

  /** One step of the shared maps; each is atomic, and they interleave freely. */
  datatype Event =
    | Enter(id: nat, requested: nat, direction: Direction, protocol: nat)
    | Exit(id: nat, cpu: nat, returned: int, view: SocketView, comm: string)
    | DrainKey(key: FlowKey)

  const ZERO_ADDRESS: seq<nat> := [0, 0, 0, 0, 0, 0, 0, 0, 0, 0, 0, 0, 0, 0, 0, 0]

  function AddU64(counter: nat, bytes: nat): nat {
    (counter + bytes) % U64
  }

  function KeyOf(call: Inflight, view: SocketView, comm: string): FlowKey {
    var address :=
      if view.family == AF_INET then (view.v4 + ZERO_ADDRESS)[..16]
      else if view.family == AF_INET6 then (view.v6 + ZERO_ADDRESS)[..16]
      else ZERO_ADDRESS;
    FlowKey(call.pid, view.family, call.protocol, view.remotePort, address, comm)
  }

  function Init(cpus: nat): Kernel {
    Kernel(map[], map[], seq(cpus, i => Stats(0, 0)))
  }

  function RememberCall(k: Kernel, id: nat, requested: nat, direction: Direction, protocol: nat): Kernel {
    if id in k.calls || |k.calls| < MAX_CALLS
    then k.(calls := k.calls[id := Inflight(requested, id / 0x1_0000_0000, direction, protocol)])
    else k
  }

  function Credit(value: FlowValue, direction: Direction, bytes: nat): FlowValue {
    match direction
    case Rx => value.(rx := AddU64(value.rx, bytes))
    case Tx => value.(tx := AddU64(value.tx, bytes))
  }

  function ValueAt(flows: map<FlowKey, FlowValue>, key: FlowKey): FlowValue {
    if key in flows then flows[key] else FlowValue(0, 0)
  }

  function Word(value: FlowValue, direction: Direction): nat {
    if direction == Rx then value.rx else value.tx
  }

  function CountDrop(s: Stats, bytes: nat): Stats {
    Stats(AddU64(s.droppedEvents, 1), AddU64(s.droppedBytes, bytes))
  }

  function ReturnCall(k: Kernel, id: nat, cpu: nat, returned: int, view: SocketView, comm: string): Kernel
    requires cpu < |k.stats|
  {
    if id !in k.calls then k
    else
      var call := k.calls[id];
      var done := k.(calls := k.calls - {id});
      if returned <= 0 || returned > call.requested then done
      else
        var key := KeyOf(call, view, comm);
        if key in k.flows || |k.flows| < MAX_FLOWS then
          done.(flows := k.flows[key := Credit(ValueAt(k.flows, key), call.direction, returned)])
        else
          done.(stats := k.stats[cpu := CountDrop(k.stats[cpu], returned)])
  }

  function TakeKey(k: Kernel, key: FlowKey): Kernel {
    k.(flows := k.flows - {key})
  }

  predicate Allowed(k: Kernel, e: Event) {
    e.Exit? ==> e.cpu < |k.stats|
  }

  function Step(k: Kernel, e: Event): Kernel
    requires Allowed(k, e)
  {
    match e
    case Enter(id, requested, direction, protocol) => RememberCall(k, id, requested, direction, protocol)
    case Exit(id, cpu, returned, view, comm) => ReturnCall(k, id, cpu, returned, view, comm)
    case DrainKey(key) => TakeKey(k, key)
  }

  // ---- what a step accepts and hands out, judged without looking at the flow map ----

  datatype Slot = Slot(key: FlowKey, direction: Direction)

  /** A return counts when its call is remembered and 0 < returned <= requested. */
  predicate Accepts(k: Kernel, e: Event) {
    e.Exit? && e.id in k.calls && 0 < e.returned <= k.calls[e.id].requested
  }

  function TargetSlot(k: Kernel, e: Event): Slot
    requires Accepts(k, e)
  {
    Slot(KeyOf(k.calls[e.id], e.view, e.comm), k.calls[e.id].direction)
  }

  /** Bytes that e brings for the counters selected by `sel`. */
  function AcceptedBytes(k: Kernel, e: Event, sel: Slot -> bool): nat {
    if Accepts(k, e) && sel(TargetSlot(k, e)) then e.returned else 0
  }

  predicate Drops(k: Kernel, e: Event) {
    Accepts(k, e) && TargetSlot(k, e).key !in k.flows && |k.flows| >= MAX_FLOWS
  }

  function LostBytes(k: Kernel, e: Event, sel: Slot -> bool): nat {
    if Drops(k, e) then AcceptedBytes(k, e, sel) else 0
  }

  function Counter(k: Kernel, s: Slot): nat {
    Word(ValueAt(k.flows, s.key), s.direction)
  }

  /** The selected 64-bit flow counter that takes the bytes of e overflows. */
  predicate FlowWraps(k: Kernel, e: Event, sel: Slot -> bool) {
    Accepts(k, e) && !Drops(k, e) && sel(TargetSlot(k, e)) && Counter(k, TargetSlot(k, e)) + e.returned >= U64
  }

  predicate DropWraps(k: Kernel, e: Event)
    requires Allowed(k, e)
  {
    Drops(k, e) && k.stats[e.cpu].droppedBytes + e.returned >= U64
  }

  function ValueBytes(key: FlowKey, value: FlowValue, sel: Slot -> bool): nat {
    (if sel(Slot(key, Rx)) then value.rx else 0) + (if sel(Slot(key, Tx)) then value.tx else 0)
  }

  function HandedOut(k: Kernel, e: Event, sel: Slot -> bool): nat {
    if e.DrainKey? then ValueBytes(e.key, ValueAt(k.flows, e.key), sel) else 0
  }

  ghost function FlowColumn(flows: map<FlowKey, FlowValue>, sel: Slot -> bool): map<FlowKey, int> {
    map key | key in flows :: ValueBytes(key, flows[key], sel)
  }

  /** The bytes now in the selected counters of the flow map. */
  ghost function FlowTotal(k: Kernel, sel: Slot -> bool): int {
    Sum(FlowColumn(k.flows, sel))
  }

  function DroppedTotal(stats: seq<Stats>): nat {
    if stats == [] then 0 else DroppedTotal(stats[..|stats| - 1]) + stats[|stats| - 1].droppedBytes
  }

  /** Every counter is a 64-bit word and both hash maps respect their capacity. */
  predicate WellFormed(k: Kernel) {
    && |k.calls| <= MAX_CALLS
    && |k.flows| <= MAX_FLOWS
    && (forall key :: key in k.flows ==> k.flows[key].rx < U64 && k.flows[key].tx < U64)
    && (forall i :: 0 <= i < |k.stats| ==> k.stats[i].droppedEvents < U64 && k.stats[i].droppedBytes < U64)
    && (forall id :: id in k.calls ==> k.calls[id].requested < U64)
  }

  // ---- runs ----

  /** What has happened to the bytes of the selected counters; `lost` counts those turned away. */
  datatype Books = Books(accepted: nat, handedOut: nat, lost: nat, wraps: nat)

  predicate ValidEvents(cpus: nat, es: seq<Event>) {
    forall e :: e in es ==> (e.Exit? ==> e.cpu < cpus) && (e.Enter? ==> e.requested < U64)
  }

  function Run(cpus: nat, es: seq<Event>): (k: Kernel)
    requires ValidEvents(cpus, es)
    ensures |k.stats| == cpus
  {
    if es == [] then Init(cpus) else Step(Run(cpus, es[..|es| - 1]), es[|es| - 1])
  }

  function Record(b: Books, k: Kernel, e: Event, sel: Slot -> bool): Books {
    Books(b.accepted + AcceptedBytes(k, e, sel),
          b.handedOut + HandedOut(k, e, sel),
          b.lost + LostBytes(k, e, sel),
          b.wraps + if FlowWraps(k, e, sel) then 1 else 0)
  }

  function Booked(cpus: nat, es: seq<Event>, sel: Slot -> bool): Books
    requires ValidEvents(cpus, es)
  {
    if es == [] then Books(0, 0, 0, 0)
    else
      var n := |es| - 1;
      Record(Booked(cpus, es[..n], sel), Run(cpus, es[..n]), es[n], sel)
  }

  function AllSlots(): Slot -> bool {
    (s: Slot) => true
  }

  function OnlySlot(slot: Slot): Slot -> bool {
    (s: Slot) => s == slot
  }

  lemma {:induction false} DroppedTotalUpdate(stats: seq<Stats>, cpu: nat, s: Stats)
    requires cpu < |stats|
    ensures DroppedTotal(stats[cpu := s]) == DroppedTotal(stats) - stats[cpu].droppedBytes + s.droppedBytes
  {
    var n := |stats| - 1;
    if cpu == n {
      assert stats[cpu := s][..n] == stats[..n];
    } else {
      assert stats[cpu := s][..n] == stats[..n][cpu := s];
      DroppedTotalUpdate(stats[..n], cpu, s);
    }
  }

  lemma WrapAround(counter: nat, bytes: nat)
    requires counter < U64 && bytes < U64
    ensures AddU64(counter, bytes) == counter + bytes - if counter + bytes >= U64 then U64 else 0
  {
  }

  lemma TakeKeyTotal(k: Kernel, key: FlowKey, sel: Slot -> bool)
    ensures FlowTotal(TakeKey(k, key), sel) == FlowTotal(k, sel) - HandedOut(k, DrainKey(key), sel)
  {
    if key in k.flows {
      SumRemove(FlowColumn(k.flows, sel), key);
      assert FlowColumn(k.flows, sel) - {key} == FlowColumn(k.flows - {key}, sel);
    } else {
      assert k.flows - {key} == k.flows;
    }
  }

  /** Crediting one counter adds the bytes to the totals that select it, less a word if it wraps. */
  lemma CreditTotal(flows: map<FlowKey, FlowValue>, s: Slot, bytes: nat, sel: Slot -> bool)
    requires s.key in flows ==> flows[s.key].rx < U64 && flows[s.key].tx < U64
    requires bytes < U64
    ensures Sum(FlowColumn(flows[s.key := Credit(ValueAt(flows, s.key), s.direction, bytes)], sel))
         == Sum(FlowColumn(flows, sel)) + (if sel(s) then bytes else 0)
            - if sel(s) && Word(ValueAt(flows, s.key), s.direction) + bytes >= U64 then U64 else 0
  {
    var value := ValueAt(flows, s.key);
    WrapAround(Word(value, s.direction), bytes);
    var credited := Credit(value, s.direction, bytes);
    SumUpdate(FlowColumn(flows, sel), s.key, ValueBytes(s.key, credited, sel));
    assert FlowColumn(flows[s.key := credited], sel)
        == FlowColumn(flows, sel)[s.key := ValueBytes(s.key, credited, sel)];
  }

  lemma CountDropTotal(stats: seq<Stats>, cpu: nat, bytes: nat)
    requires cpu < |stats| && stats[cpu].droppedBytes < U64 && bytes < U64
    ensures DroppedTotal(stats[cpu := CountDrop(stats[cpu], bytes)])
         == DroppedTotal(stats) + bytes - if stats[cpu].droppedBytes + bytes >= U64 then U64 else 0
  {
    WrapAround(stats[cpu].droppedBytes, bytes);
    DroppedTotalUpdate(stats, cpu, CountDrop(stats[cpu], bytes));
  }

  /** One step moves the flow total exactly by what the books record for it. */
  lemma StepTotal(k: Kernel, e: Event, sel: Slot -> bool)
    requires Allowed(k, e) && WellFormed(k)
    ensures FlowTotal(Step(k, e), sel) + HandedOut(k, e, sel) + LostBytes(k, e, sel)
            + (if FlowWraps(k, e, sel) then U64 else 0)
         == FlowTotal(k, sel) + AcceptedBytes(k, e, sel)
  {
    if e.DrainKey? {
      TakeKeyTotal(k, e.key, sel);
    } else if Accepts(k, e) && !Drops(k, e) {
      assert e.returned < U64;
      CreditTotal(k.flows, TargetSlot(k, e), e.returned, sel);
    }
  }

  /** One step moves the sum of the per-CPU drop counters exactly by the bytes turned away. */
  lemma StepDropped(k: Kernel, e: Event)
    requires Allowed(k, e) && WellFormed(k)
    ensures DroppedTotal(Step(k, e).stats) + (if DropWraps(k, e) then U64 else 0)
         == DroppedTotal(k.stats) + LostBytes(k, e, AllSlots())
  {
    if Drops(k, e) {
      CountDropTotal(k.stats, e.cpu, e.returned);
    }
  }

  lemma ReturnKeepsWellFormed(k: Kernel, e: Event)
    requires e.Exit? && Allowed(k, e) && WellFormed(k)
    ensures WellFormed(Step(k, e))
  {
    var k' := Step(k, e);
    if e.id in k.calls {
      assert (k.calls - {e.id}).Keys == k.calls.Keys - {e.id};
    }
    if Accepts(k, e) && !Drops(k, e) {
      var key := TargetSlot(k, e).key;
      assert k'.flows.Keys == k.flows.Keys + {key};
    }
  }

  lemma StepKeepsWellFormed(k: Kernel, e: Event)
    requires Allowed(k, e) && WellFormed(k)
    requires e.Enter? ==> e.requested < U64
    ensures WellFormed(Step(k, e))
  {
    match e
    case Enter(id, requested, direction, protocol) =>
      assert Step(k, e).calls.Keys <= k.calls.Keys + {id};
    case DrainKey(key) =>
      assert (k.flows - {key}).Keys == k.flows.Keys - {key};
    case Exit(id, cpu, returned, view, comm) => ReturnKeepsWellFormed(k, e);
  }

  /** The capacities hold and every counter stays a 64-bit word, in every run. */
  lemma {:induction false} RunWellFormed(cpus: nat, es: seq<Event>)
    requires ValidEvents(cpus, es)
    ensures WellFormed(Run(cpus, es))
  {
    if es != [] {
      RunWellFormed(cpus, es[..|es| - 1]);
      StepKeepsWellFormed(Run(cpus, es[..|es| - 1]), es[|es| - 1]);
    }
  }

  /**
   * Kernel conservation: over any interleaving of entries, returns and single-key drains, and for
   * any choice of counters, the bytes still in the flow map, those handed out and those turned away
   * by a full map add up to the accepted returns, up to one 64-bit word per counter that wrapped.
   */
  lemma {:induction false} KernelConservation(cpus: nat, es: seq<Event>, sel: Slot -> bool)
    requires ValidEvents(cpus, es)
    ensures var b := Booked(cpus, es, sel);
            FlowTotal(Run(cpus, es), sel) + b.handedOut + b.lost + U64 * b.wraps == b.accepted
  {
    if es == [] {
      assert FlowColumn(map[], sel) == map[];
    } else {
      var n := |es| - 1;
      KernelConservation(cpus, es[..n], sel);
      RunWellFormed(cpus, es[..n]);
      StepTotal(Run(cpus, es[..n]), es[n], sel);
    }
  }

  function DropWrapCount(cpus: nat, es: seq<Event>): nat
    requires ValidEvents(cpus, es)
  {
    if es == [] then 0
    else
      var n := |es| - 1;
      DropWrapCount(cpus, es[..n]) + if DropWraps(Run(cpus, es[..n]), es[n]) then 1 else 0
  }

  /** The per-CPU drop counters add up to the bytes that the full map turned away. */
  lemma {:induction false} DropsAreCounted(cpus: nat, es: seq<Event>)
    requires ValidEvents(cpus, es)
    ensures DroppedTotal(Run(cpus, es).stats) + U64 * DropWrapCount(cpus, es)
         == Booked(cpus, es, AllSlots()).lost
  {
    if es == [] {
      ZeroStats(cpus);
    } else {
      var n := |es| - 1;
      DropsAreCounted(cpus, es[..n]);
      RunWellFormed(cpus, es[..n]);
      StepDropped(Run(cpus, es[..n]), es[n]);
    }
  }

  /** Below 2^64 accepted bytes nothing wraps, so the three visible totals balance exactly. */
  lemma ExactBelowOneWord(cpus: nat, es: seq<Event>)
    requires ValidEvents(cpus, es)
    requires Booked(cpus, es, AllSlots()).accepted < U64
    ensures FlowTotal(Run(cpus, es), AllSlots()) + DroppedTotal(Run(cpus, es).stats)
            + Booked(cpus, es, AllSlots()).handedOut == Booked(cpus, es, AllSlots()).accepted
  {
    var b := Booked(cpus, es, AllSlots());
    var total, dropped := FlowTotal(Run(cpus, es), AllSlots()), DroppedTotal(Run(cpus, es).stats);
    assert total >= 0 by { SumNonNegative(FlowColumn(Run(cpus, es).flows, AllSlots())); }
    assert total + b.handedOut + b.lost + U64 * b.wraps == b.accepted by {
      KernelConservation(cpus, es, AllSlots());
    }
    assert dropped + U64 * DropWrapCount(cpus, es) == b.lost by { DropsAreCounted(cpus, es); }
    NoWholeWord(b.wraps, b.accepted);
    NoWholeWord(DropWrapCount(cpus, es), b.accepted);
  }

  lemma NoWholeWord(words: nat, bytes: nat)
    requires U64 * words <= bytes < U64
    ensures words == 0
  {
  }

  lemma {:induction false} ZeroStats(cpus: nat)
    ensures DroppedTotal(Init(cpus).stats) == 0
  {
    if cpus > 0 {
      ZeroStats(cpus - 1);
      assert Init(cpus).stats[..cpus - 1] == Init(cpus - 1).stats;
    }
  }

  /** The total of one counter is that counter. */
  lemma OneSlotTotal(k: Kernel, s: Slot)
    ensures FlowTotal(k, OnlySlot(s)) == Counter(k, s)
  {
    var column := FlowColumn(k.flows, OnlySlot(s));
    if s.key in k.flows {
      SumRemove(column, s.key);
      SumOfZeros(column - {s.key});
    } else {
      SumOfZeros(column);
    }
  }

  /** Each single counter balances on its own: nothing is charged to another process, peer or direction. */
  lemma CounterConservation(cpus: nat, es: seq<Event>, s: Slot)
    requires ValidEvents(cpus, es)
    ensures var b := Booked(cpus, es, OnlySlot(s));
            Counter(Run(cpus, es), s) + b.handedOut + b.lost + U64 * b.wraps == b.accepted
  {
    KernelConservation(cpus, es, OnlySlot(s));
    OneSlotTotal(Run(cpus, es), s);
  }

  /** A counter disappears or shrinks only when its own key is drained, or when it wraps. */
  lemma OnlyDrainTakes(k: Kernel, e: Event, s: Slot)
    requires Allowed(k, e) && WellFormed(k)
    requires s.key in k.flows && e != DrainKey(s.key) && !FlowWraps(k, e, OnlySlot(s))
    ensures s.key in Step(k, e).flows
    ensures Counter(Step(k, e), s) == Counter(k, s) + AcceptedBytes(k, e, OnlySlot(s))
  {
    if Accepts(k, e) {
      WrapAround(Counter(k, TargetSlot(k, e)), e.returned);
    }
  }

  /** A thread's call and its return together add the bytes to the call's counter and leave no call behind. */
  lemma CallAndReturn(k: Kernel, id: nat, cpu: nat, n: nat, direction: Direction, protocol: nat, view: SocketView,
                      comm: string, key: FlowKey)
    requires id !in k.calls && |k.calls| < MAX_CALLS && 0 < n < U64 && cpu < |k.stats|
    requires key == KeyOf(Inflight(n, id / 0x1_0000_0000, direction, protocol), view, comm)
    requires key in k.flows || |k.flows| < MAX_FLOWS
    ensures ReturnCall(RememberCall(k, id, n, direction, protocol), id, cpu, n, view, comm)
         == k.(flows := k.flows[key := Credit(ValueAt(k.flows, key), direction, n)])
  {
    assert RememberCall(k, id, n, direction, protocol).calls - {id} == k.calls;
  }

  // ---- the agent's side: draining ----

  function ByPid(processes: seq<Process>): map<nat, Process> {
    if processes == [] then map[]
    else
      var last := processes[|processes| - 1];
      ByPid(processes[..|processes| - 1])[last.pid := last]
  }

  function RemoteIpOf(key: FlowKey): RemoteIp {
    if key.family == AF_INET then V4(key.remoteAddr[..if |key.remoteAddr| < 4 then |key.remoteAddr| else 4])
    else if key.family == AF_INET6 then
      if |key.remoteAddr| == 16 && key.remoteAddr[..12] == [0, 0, 0, 0, 0, 0, 0, 0, 0, 0, 255, 255]
      then V4(key.remoteAddr[12..])
      else V6(key.remoteAddr)
    else UnknownIp
  }

  function FlowOf(key: FlowKey, value: FlowValue, byPid: map<nat, Process>, now: nat): Flow {
    var process := if key.pid in byPid then byPid[key.pid] else Process(0, "", "");
    var name :=
      if process.name != "" then process.name
      else if key.comm != "" then key.comm
      else "unknown";
    Flow(now, key.pid, name, ProcessGroup(name), process.user,
         ProtocolName(key.protocol),
         RemoteIpOf(key), key.remotePort, value.rx, value.tx)
  }

  /** What one LookupAndDelete adds to the batch: nothing for a missing or all-zero counter. */
  function FlowsOf(k: Kernel, key: FlowKey, byPid: map<nat, Process>, now: nat): seq<Flow> {
    if key in k.flows && (k.flows[key].rx != 0 || k.flows[key].tx != 0)
    then [FlowOf(key, k.flows[key], byPid, now)]
    else []
  }

  function TakeKeys(k: Kernel, visited: seq<FlowKey>): Kernel {
    if visited == [] then k else TakeKey(TakeKeys(k, visited[..|visited| - 1]), visited[|visited| - 1])
  }

  function DrainedFlows(k: Kernel, visited: seq<FlowKey>, byPid: map<nat, Process>, now: nat): seq<Flow> {
    if visited == [] then []
    else
      var n := |visited| - 1;
      DrainedFlows(k, visited[..n], byPid, now) + FlowsOf(TakeKeys(k, visited[..n]), visited[n], byPid, now)
  }

  function ProtocolName(protocol: nat): string {
    if protocol == IPPROTO_UDP then "udp" else "tcp"
  }

  /** A selection of tags, as a selection of kernel counters. */
  function Lift(sel: Tag -> bool): Slot -> bool {
    (s: Slot) => sel(Tag(s.key.pid, ProtocolName(s.key.protocol), RemoteIpOf(s.key), s.key.remotePort, s.direction))
  }

  lemma FlowsOfBytes(k: Kernel, key: FlowKey, byPid: map<nat, Process>, now: nat, sel: Tag -> bool)
    ensures FlowBytes(FlowsOf(k, key, byPid, now), sel) == HandedOut(k, DrainKey(key), Lift(sel))
  {
    assert FlowBytes([], sel) == 0;
  }

  lemma {:induction false} DrainStamps(k: Kernel, visited: seq<FlowKey>, byPid: map<nat, Process>, now: nat)
    ensures forall f :: f in DrainedFlows(k, visited, byPid, now) ==> f.timestamp == now && f.rx + f.tx > 0
  {
    if visited != [] {
      DrainStamps(k, visited[..|visited| - 1], byPid, now);
    }
  }

  /** Visiting one more key moves its bytes from the map to the batch. */
  lemma VisitMovesBytes(k: Kernel, key: FlowKey, batch: seq<Flow>, byPid: map<nat, Process>, now: nat, sel: Tag -> bool)
    ensures FlowTotal(TakeKey(k, key), Lift(sel)) + FlowBytes(batch + FlowsOf(k, key, byPid, now), sel)
         == FlowTotal(k, Lift(sel)) + FlowBytes(batch, sel)
  {
    TakeKeyTotal(k, key, Lift(sel));
    FlowsOfBytes(k, key, byPid, now, sel);
    FlowBytesAppend(batch, FlowsOf(k, key, byPid, now), sel);
  }

  /**
   * Whatever keys the map iterator visits, in whatever order and however often, the batch carries
   * exactly the bytes that left the flow map, for every process, protocol, remote address, port and direction.
   */
  lemma {:induction false} DrainMovesBytes(k: Kernel, visited: seq<FlowKey>, byPid: map<nat, Process>, now: nat,
                                           sel: Tag -> bool)
    ensures FlowTotal(TakeKeys(k, visited), Lift(sel)) + FlowBytes(DrainedFlows(k, visited, byPid, now), sel)
         == FlowTotal(k, Lift(sel))
    ensures forall f :: f in DrainedFlows(k, visited, byPid, now) ==> f.timestamp == now && f.rx + f.tx > 0
  {
    DrainStamps(k, visited, byPid, now);
    if visited != [] {
      var n := |visited| - 1;
      DrainMovesBytes(k, visited[..n], byPid, now, sel);
      var batch := DrainedFlows(k, visited[..n], byPid, now);
      VisitMovesBytes(TakeKeys(k, visited[..n]), visited[n], batch, byPid, now, sel);
    }
  }

  /** A drain that visits every key empties the map. */
  lemma {:induction false} FullDrainEmpties(k: Kernel, visited: seq<FlowKey>)
    ensures TakeKeys(k, visited).flows.Keys == k.flows.Keys - set key | key in visited
  {
    if visited != [] {
      var n := |visited| - 1;
      FullDrainEmpties(k, visited[..n]);
      assert visited == visited[..n] + [visited[n]];
    }
  }

  /** The maps as the probes and the agent's tracker share them. */
  class BpfTracker {
    var calls: map<nat, Inflight>
    var flows: map<FlowKey, FlowValue>
    const stats: array<Stats>

    ghost function View(): Kernel
      reads this, stats
    {
      Kernel(calls, flows, stats[..])
    }

    constructor (cpus: nat)
      ensures View() == Init(cpus) && fresh(stats)
    {
      calls, flows := map[], map[];
      stats := new Stats[cpus](i => Stats(0, 0));
    }

    method RememberSocket(id: nat, requested: nat, direction: Direction, protocol: nat)
      modifies this`calls
      ensures View() == RememberCall(old(View()), id, requested, direction, protocol)
    {
      if id in calls || |calls| < MAX_CALLS {
        calls := calls[id := Inflight(requested, id / 0x1_0000_0000, direction, protocol)];
      }
    }

    method RecordDrop(cpu: nat, bytes: nat)
      requires cpu < stats.Length
      modifies stats
      ensures stats[..] == old(stats[..])[cpu := CountDrop(old(stats[cpu]), bytes)]
    {
      stats[cpu] := Stats(AddU64(stats[cpu].droppedEvents, 1), AddU64(stats[cpu].droppedBytes, bytes));
    }

    method AccountReturn(id: nat, cpu: nat, returned: int, view: SocketView, comm: string)
      requires cpu < stats.Length
      modifies this, stats
      ensures View() == ReturnCall(old(View()), id, cpu, returned, view, comm)
    {
      if id !in calls {
        return;
      }
      var call := calls[id];
      if returned <= 0 || returned > call.requested {
        calls := calls - {id};
        return;
      }
      var key := KeyOf(call, view, comm);
      if key !in flows {
        if |flows| < MAX_FLOWS {
          flows := flows[key := FlowValue(0, 0)];
        }
        if key !in flows {
          RecordDrop(cpu, returned);
          calls := calls - {id};
          return;
        }
      }
      var value := flows[key];
      if call.direction == Rx {
        flows := flows[key := value.(rx := AddU64(value.rx, returned))];
      } else {
        flows := flows[key := value.(tx := AddU64(value.tx, returned))];
      }
      calls := calls - {id};
    }

    method DroppedBytes() returns (total: nat)
      ensures total == DroppedTotal(stats[..]) % U64
    {
      total := 0;
      for i := 0 to stats.Length
        invariant total == DroppedTotal(stats[..i]) % U64
      {
        assert stats[..i + 1][..i] == stats[..i];
        total := AddU64(total, stats[i].droppedBytes);
      }
      assert stats[..stats.Length] == stats[..];
    }

    /** `visited` is what the map iterator yields; it need not be every key, nor distinct keys. */
    method Drain(visited: seq<FlowKey>, processes: seq<Process>, now: nat) returns (result: seq<Flow>)
      modifies this`flows
      ensures View() == TakeKeys(old(View()), visited)
      ensures result == DrainedFlows(old(View()), visited, ByPid(processes), now)
    {
      ghost var before := View();
      var byPid: map<nat, Process> := map[];
      for i := 0 to |processes|
        invariant byPid == ByPid(processes[..i])
      {
        assert processes[..i + 1][..i] == processes[..i];
        byPid := byPid[processes[i].pid := processes[i]];
      }
      assert processes[..|processes|] == processes;
      result := [];
      for i := 0 to |visited|
        invariant calls == before.calls && stats[..] == before.stats
        invariant View() == TakeKeys(before, visited[..i])
        invariant result == DrainedFlows(before, visited[..i], byPid, now)
      {
        assert visited[..i + 1][..i] == visited[..i];
        var key := visited[i];
        if key !in flows {
          assert flows - {key} == flows;
          continue;
        }
        var value := flows[key];
        flows := flows - {key};
        if value.rx == 0 && value.tx == 0 {
          continue;
        }
        result := result + [FlowOf(key, value, byPid, now)];
      }
      assert visited[..|visited|] == visited;
    }

    method Reset()
      modifies this, stats
      ensures View() == Init(stats.Length)
    {
      while flows != map[]
        decreases |flows|
      {
        var key :| key in flows;
        assert (flows - {key}).Keys == flows.Keys - {key};
        flows := flows - {key};
      }
      while calls != map[]
        invariant flows == map[]
        decreases |calls|
      {
        var id :| id in calls;
        assert (calls - {id}).Keys == calls.Keys - {id};
        calls := calls - {id};
      }
      for i := 0 to stats.Length
        modifies stats
        invariant flows == map[] && calls == map[]
        invariant forall j :: 0 <= j < i ==> stats[j] == Stats(0, 0)
      {
        stats[i] := Stats(0, 0);
      }
    }
  }
}
