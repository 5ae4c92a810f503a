/** The package refresh flag, its one-slot queue, and the loop that runs the scans. */
module PackageRefresh {
  datatype Cause = First | Second | Tick | Token

  /** Where the package loop is; `About` lies between choosing a scan and setting the flag for it. */
  datatype Phase =
    | About(refresh: bool, cause: Cause)
    | Scanning(refresh: bool, cause: Cause)
    | Deciding
    | Waiting
    | Stopped

  /** `accepted`, `consumed` and `served` count requests, received tokens and finished token scans. */
  datatype State = State(
    flag: bool, queue: seq<bool>, phase: Phase, accepted: nat, consumed: nat, served: nat)

  datatype Event =
    | Request
    | Begin
    | End
    | Decide(due: bool)
    | TickScan(metadata: bool)
    | Receive
    | Stop

  const CAPACITY: nat := 1

  /** A send on the one-slot channel with a `default` branch: it never waits. */
  function TrySend(queue: seq<bool>, token: bool): (seq<bool>, bool) {
    if |queue| < CAPACITY then (queue + [token], true) else (queue, false)
  }

  /** The request handler; the answer is whether the request was accepted. */
  function Ask(flag: bool, queue: seq<bool>): (bool, seq<bool>, bool) {
    if flag then (flag, queue, false)
    else
      var (sent, fits) := TrySend(queue, true);
      (true, sent, fits)
  }

  function Init(): State {
    State(false, [], About(false, First), 0, 0, 0)
  }

  predicate Enabled(s: State, ev: Event) {
    match ev
    case Request => true
    case Begin => s.phase.About?
    case End => s.phase.Scanning?
    case Decide(_) => s.phase.Deciding?
    case TickScan(_) => s.phase.Waiting?
    case Receive => s.phase.Waiting? && s.queue != []
    case Stop => s.phase.Waiting?
  }

  function Next(s: State, ev: Event): State {
    if !Enabled(s, ev) then s
    else
      match ev
      case Request =>
        var (flag, queue, ok) := Ask(s.flag, s.queue);
        s.(flag := flag, queue := queue, accepted := if ok then s.accepted + 1 else s.accepted)
      case Begin => s.(flag := true, phase := Scanning(s.phase.refresh, s.phase.cause))
      case End =>
        s.(flag := false, phase := if s.phase.cause.First? then Deciding else Waiting,
           served := if s.phase.cause.Token? then s.served + 1 else s.served)
      case Decide(due) => s.(phase := if due then About(true, Second) else Waiting)
      case TickScan(metadata) => s.(phase := About(metadata, Tick))
      case Receive => s.(queue := s.queue[1..], phase := About(s.queue[0], Token), consumed := s.consumed + 1)
      case Stop => s.(phase := Stopped)
  }

  function RunFrom(s: State, es: seq<Event>): State
    decreases es
  {
    if es == [] then s else RunFrom(Next(s, es[0]), es[1..])
  }

  predicate Scan(p: Phase) {
    p.About? || p.Scanning?
  }

  function InFlight(p: Phase): nat {
    if Scan(p) && p.cause.Token? then 1 else 0
  }

  /** The queue, the ledger of accepted requests, and what a raised flag promises. */
  predicate Inv(s: State) {
    && |s.queue| <= CAPACITY
    && (forall token :: token in s.queue ==> token)
    && s.accepted == s.consumed + |s.queue|
    && s.consumed == s.served + InFlight(s.phase)
    && (Scan(s.phase) && s.phase.cause.Token? ==> s.phase.refresh)
    && (s.phase.Scanning? ==> s.flag)
    && (s.flag && !s.phase.Stopped? ==> s.queue != [] || Scan(s.phase))
  }

  lemma NextKeepsInv(s: State, ev: Event)
    requires Inv(s)
    ensures Inv(Next(s, ev))
  {
    if Enabled(s, ev) && ev.Receive? {
      assert s.queue == [s.queue[0]] && s.queue[0] in s.queue;
    }
  }

  /**
   * In every interleaving of requests, ticks, scans and the stop, every accepted request is queued, being
   * served, or served by a scan that refreshes the metadata, and before the stop a raised flag always has
   * a token queued or a scan running or about to run.
   */
  lemma {:induction false} RunKeepsInv(s: State, es: seq<Event>)
    requires Inv(s)
    ensures Inv(RunFrom(s, es))
    decreases es
  {
    if es != [] {
      NextKeepsInv(s, es[0]);
      RunKeepsInv(Next(s, es[0]), es[1..]);
    }
  }

  lemma InitKeepsInv(s: State)
    requires s == Init()
    ensures Inv(s)
  {
  }

  /** An idle loop with an empty queue shows a clear flag, and has served every accepted request. */
  lemma FlagClearWhenIdle(es: seq<Event>, start: State, s: State)
    requires start == Init() && s == RunFrom(start, es) && s.phase.Waiting? && s.queue == []
    ensures !s.flag && s.accepted == s.served
  {
    InitKeepsInv(start);
    RunKeepsInv(start, es);
  }

  /** A refused request always finds a token queued or a scan running or about to run. */
  lemma RefusedMeansBusy(es: seq<Event>, start: State, s: State)
    requires start == Init() && s == RunFrom(start, es)
    requires !s.phase.Stopped? && !Ask(s.flag, s.queue).2
    ensures s.queue != [] || Scan(s.phase)
  {
    InitKeepsInv(start);
    RunKeepsInv(start, es);
  }

  /** A request is accepted exactly when the flag is clear and no token waits. */
  lemma AcceptedIff(s: State)
    requires Inv(s)
    ensures Next(s, Request).accepted == s.accepted + 1 <==> !s.flag && s.queue == []
    ensures Next(s, Request).flag
  {
  }

  // ---- the flag always comes down again ----

  /** How many steps of the loop alone are left until it is idle. */
  function Remaining(s: State): nat {
    3 * |s.queue| +
    match s.phase
    case About(_, cause) => if cause.First? then 5 else 2
    case Scanning(_, cause) => if cause.First? then 4 else 1
    case Deciding => 3
    case Waiting => 0
    case Stopped => 0
  }

  /** The loop's own next step when nobody else moves; `due` answers its start-up question. */
  function LoopStep(s: State, due: bool): Event {
    match s.phase
    case About(_, _) => Begin
    case Scanning(_, _) => End
    case Deciding => Decide(due)
    case Waiting => Receive
    case Stopped => Receive
  }

  function Settle(s: State, due: bool): (es: seq<Event>)
    requires Inv(s) && !s.phase.Stopped?
    ensures |es| <= Remaining(s)
    ensures forall ev :: ev in es ==> ev.Begin? || ev.End? || ev.Decide? || ev.Receive?
    decreases Remaining(s)
  {
    if s.phase.Waiting? && s.queue == [] then []
    else
      var ev := LoopStep(s, due);
      NextKeepsInv(s, ev);
      [ev] + Settle(Next(s, ev), due)
  }

  /** The loop on its own brings the flag down and serves every accepted request, in at most eight steps. */
  lemma {:induction false} FlagComesDown(s: State, due: bool)
    requires Inv(s) && !s.phase.Stopped?
    ensures |Settle(s, due)| <= 8
    ensures var t := RunFrom(s, Settle(s, due));
            t.phase.Waiting? && t.queue == [] && !t.flag && t.served == t.accepted == s.accepted
    decreases Remaining(s)
  {
    if !(s.phase.Waiting? && s.queue == []) {
      var ev := LoopStep(s, due);
      NextKeepsInv(s, ev);
      FlagComesDown(Next(s, ev), due);
      assert Settle(s, due)[0] == ev && Settle(s, due)[1..] == Settle(Next(s, ev), due);
    }
  }

  // ---- where the flag says less than it seems to ----

  /** After the stop a raised flag never comes down, and the next request raises it. */
  lemma {:induction false} StopSticks(s: State, es: seq<Event>)
    requires s.phase.Stopped?
    ensures RunFrom(s, es).phase.Stopped?
    ensures RunFrom(s, es).flag <==> s.flag || Request in es
    ensures RunFrom(s, es).served == s.served
    decreases es
  {
    if es != [] {
      StopSticks(Next(s, es[0]), es[1..]);
      assert Request in es <==> es[0] == Request || Request in es[1..];
    }
  }

  /** A request can be refused while no metadata refresh is queued, running or about to run. */
  lemma RefusedWithoutRefresh()
    ensures exists es :: var s := RunFrom(Init(), es);
                         !Ask(s.flag, s.queue).2 && s.queue == [] && s.phase == Scanning(false, First)
  {
    var es := [Begin];
    assert es[1..] == [];
    assert RunFrom(Init(), es) == RunFrom(Next(Init(), Begin), []);
  }

  // ---- the fields as the handler and the loop update them ----

  class Server {
    var packageRefreshing: bool
    var packageRefresh: seq<bool>
    var phase: Phase
    ghost var accepted: nat
    ghost var consumed: nat
    ghost var served: nat

    ghost function View(): State
      reads this
    {
      State(packageRefreshing, packageRefresh, phase, accepted, consumed, served)
    }

    constructor ()
      ensures View() == Init()
    {
      packageRefreshing, packageRefresh, phase := false, [], About(false, First);
      accepted, consumed, served := 0, 0, 0;
    }

    /** The handler's critical section. */
    method PackageRefreshRequest() returns (ok: bool, alreadyRunning: bool)
      modifies this
      ensures View() == Next(old(View()), Request)
      ensures ok <==> accepted == old(accepted) + 1
      ensures alreadyRunning == !ok
    {
      alreadyRunning := packageRefreshing;
      if !alreadyRunning {
        packageRefreshing := true;
        if |packageRefresh| < CAPACITY {
          packageRefresh := packageRefresh + [true];
        } else {
          alreadyRunning := true;
        }
      }
      ok := !alreadyRunning;
      if ok {
        accepted := accepted + 1;
      }
    }

    /** The first critical section of runPackageScan. */
    method BeginPackageScan() returns (refreshMetadata: bool)
      requires phase.About?
      modifies this
      ensures View() == Next(old(View()), Begin)
      ensures refreshMetadata == old(phase).refresh
    {
      packageRefreshing := true;
      refreshMetadata := phase.refresh;
      phase := Scanning(phase.refresh, phase.cause);
    }

    /** Its deferred one, and the loop's return to its next choice. */
    method EndPackageScan()
      requires phase.Scanning?
      modifies this
      ensures View() == Next(old(View()), End)
    {
      packageRefreshing := false;
      if phase.cause.Token? {
        served := served + 1;
      }
      phase := if phase.cause.First? then Deciding else Waiting;
    }

    /** The loop's receive. */
    method ReceiveRefresh()
      requires phase.Waiting? && packageRefresh != []
      modifies this
      ensures View() == Next(old(View()), Receive)
    {
      var refresh := packageRefresh[0];
      packageRefresh := packageRefresh[1..];
      phase := About(refresh, Token);
      consumed := consumed + 1;
    }
  }
}
