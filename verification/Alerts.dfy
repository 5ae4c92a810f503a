/**
 * Alert evaluation as a state machine: each evaluation reads the active row of its rule and later
 * writes it back, and an operator's acknowledgement may fall anywhere, also in between.
 */
module Alerts {
  import opened Wrappers

  const SECOND: nat := 1_000_000_000

  datatype AlertState = Pending | Firing | Acknowledged | Resolved

  /** A stored row; times are whole seconds. */
  datatype Row = Row(rule: string, state: AlertState, startedAt: nat, updatedAt: nat)

  type Table = map<string, Row>

  /** The evaluation's own copy; times are nanoseconds. */
  datatype Copy = Copy(id: string, rule: string, state: AlertState, startedAt: nat, updatedAt: nat)

  datatype Message = FireMessage(id: string) | RecoveryMessage(id: string)

  /**
   * What is left to do of an evaluation: the row to put and whether to announce recovery after it.
   * `blind` is bookkeeping: the read failed although the rule had an active row.
   */
  datatype Pc = Idle | Writing(copy: Copy, recovery: bool, blind: bool)

  datatype Rule = Rule(id: string, forNanos: nat, notifyRecovery: bool)

  /** One past evaluation; `birth` is the index of the evaluation that created its alert. */
  datatype Evaluation = Evaluation(
    rule: string, now: nat, forNanos: nat, trigger: bool, alert: Option<string>, birth: nat, fired: bool)

  datatype State = State(
    alerts: Table, pc: Pc, clock: nat,
    log: seq<Message>, evals: seq<Evaluation>, born: map<string, nat>, firedAt: map<string, nat>)

  datatype Event =
    | Read(rule: Rule, now: nat, trigger: bool, found: Option<string>, fails: bool, freshId: string)
    | Write(commits: bool)
    | Acknowledge(id: string, at: nat)

  predicate Active(r: Row) {
    r.state != Resolved
  }

  predicate NoneActive(t: Table, rule: string) {
    forall id :: id in t && t[id].rule == rule ==> !Active(t[id])
  }

  /** The answers of ActiveAlert: the most recently updated active row, or nothing when there is none. */
  predicate MayFind(t: Table, rule: string, found: Option<string>) {
    match found
    case None => forall id :: id in t && t[id].rule == rule ==> !Active(t[id])
    case Some(best) =>
      && best in t && t[best].rule == rule && Active(t[best])
      && forall id :: id in t && t[id].rule == rule && Active(t[id]) ==> t[id].updatedAt <= t[best].updatedAt
  }

  function PutAlert(t: Table, c: Copy): Table {
    t[c.id := if c.id in t
              then t[c.id].(state := c.state, updatedAt := c.updatedAt / SECOND)
              else Row(c.rule, c.state, c.startedAt / SECOND, c.updatedAt / SECOND)]
  }

  function AcknowledgeAlert(t: Table, id: string, at: nat): Table {
    if id in t && t[id].state == Firing
    then t[id := t[id].(state := Acknowledged, updatedAt := at / SECOND)]
    else t
  }

  function Load(t: Table, id: string): Copy
    requires id in t
  {
    Copy(id, t[id].rule, t[id].state, t[id].startedAt * SECOND, t[id].updatedAt * SECOND)
  }

  predicate Due(c: Copy, rule: Rule, now: nat) {
    c.state == Pending && now - c.startedAt >= rule.forNanos
  }

  /** Reads agree with the table unless they fail; new ids are fresh; the clock never goes back. */
  predicate Enabled(s: State, ev: Event) {
    match ev
    case Read(rule, now, trigger, found, fails, freshId) =>
      && s.pc == Idle && now >= s.clock
      && (if fails then found == None else MayFind(s.alerts, rule.id, found))
      && freshId !in s.alerts && freshId !in s.born
    case Write(_) => s.pc != Idle
    case Acknowledge(_, _) => true
  }

  function Evaluate(s: State, ev: Event): State
    requires ev.Read? && Enabled(s, ev)
  {
    var rule, now := ev.rule, ev.now;
    var s1 := s.(clock := now);
    if ev.trigger then
      var isNew := ev.found == None;
      var copy := if isNew
        then Copy(ev.freshId, rule.id, Pending, now, now)
        else Load(s.alerts, ev.found.value).(updatedAt := now);
      var fires := Due(copy, rule, now);
      var born := if isNew then s.born[copy.id := |s.evals|] else s.born;
      var birth := if copy.id in born then born[copy.id] else 0;
      s1.(pc := Writing(if fires then copy.(state := Firing) else copy, false, isNew && !NoneActive(s.alerts, rule.id)),
          log := if fires then s.log + [FireMessage(copy.id)] else s.log,
          evals := s.evals + [Evaluation(rule.id, now, rule.forNanos, true, Some(copy.id), birth, fires)],
          born := born,
          firedAt := if fires then s.firedAt[copy.id := |s.evals|] else s.firedAt)
    else
      var s2 := s1.(evals := s.evals + [Evaluation(rule.id, now, rule.forNanos, false, None, 0, false)]);
      if ev.found == None then s2
      else
        var copy := Load(s.alerts, ev.found.value).(updatedAt := now);
        s2.(pc := Writing(copy.(state := Resolved),
                          (copy.state == Firing || copy.state == Acknowledged) && rule.notifyRecovery, false))
  }

  /** An event that is not enabled leaves the state alone. */
  function Next(s: State, ev: Event): State {
    if !Enabled(s, ev) then s
    else
      match ev
      case Read(_, _, _, _, _, _) => Evaluate(s, ev)
      case Write(commits) =>
        s.(alerts := if commits then PutAlert(s.alerts, s.pc.copy) else s.alerts,
           pc := Idle,
           log := if s.pc.recovery then s.log + [RecoveryMessage(s.pc.copy.id)] else s.log)
      case Acknowledge(id, at) => s.(alerts := AcknowledgeAlert(s.alerts, id, at))
  }

  function Init(): State {
    State(map[], Idle, 0, [], [], map[], map[])
  }

  function Run(es: seq<Event>): State {
    if es == [] then Init() else Next(Run(es[..|es| - 1]), es[|es| - 1])
  }

  predicate WritesSucceed(es: seq<Event>) {
    forall ev :: ev in es ==> (ev.Write? ==> ev.commits)
  }

  lemma Unroll(es: seq<Event>, ev: Event)
    ensures Run(es + [ev]) == Next(Run(es), ev)
  {
    assert (es + [ev])[..|es|] == es;
  }

  lemma UnrollTwo(es: seq<Event>, a: Event, b: Event)
    ensures Run(es + [a, b]) == Next(Next(Run(es), a), b)
  {
    Unroll(es, a);
    Unroll(es + [a], b);
    assert es + [a] + [b] == es + [a, b];
  }

  // ---- what every run keeps ----

  /** The copy being written is a new row, or an active row it was read from. */
  predicate CopyMatches(t: Table, c: Copy) {
    if c.id in t then
      && t[c.id].rule == c.rule && Active(t[c.id])
      && t[c.id].startedAt * SECOND == c.startedAt
      && (t[c.id].state != Pending ==> c.state != Pending)
    else
      c.state == Pending || c.state == Firing
  }

  predicate Inv(s: State) {
    && (s.pc.Writing? ==>
          && CopyMatches(s.alerts, s.pc.copy)
          && (s.pc.recovery ==> s.pc.copy.state == Resolved)
          && s.pc.copy.id in s.born
          && (s.pc.blind <==> s.pc.copy.id !in s.alerts && !NoneActive(s.alerts, s.pc.copy.rule)))
    && (forall id :: id in s.alerts ==> id in s.born)
  }

  lemma StepKeepsInv(s: State, ev: Event)
    requires Inv(s)
    ensures Inv(Next(s, ev))
  {
    if ev.Acknowledge? {
      AcknowledgeKeepsActive(s.alerts, ev.id, ev.at);
    }
  }

  lemma AcknowledgeKeepsActive(t: Table, id: string, at: nat)
    ensures forall rule :: NoneActive(AcknowledgeAlert(t, id, at), rule) <==> NoneActive(t, rule)
    ensures Unique(AcknowledgeAlert(t, id, at)) <==> Unique(t)
  {
    var t' := AcknowledgeAlert(t, id, at);
    assert t'.Keys == t.Keys;
    assert forall a :: a in t ==> t'[a].rule == t[a].rule && (Active(t'[a]) <==> Active(t[a]));
  }

  lemma {:induction false} RunKeepsInv(es: seq<Event>)
    ensures Inv(Run(es))
  {
    if es != [] {
      RunKeepsInv(es[..|es| - 1]);
      StepKeepsInv(Run(es[..|es| - 1]), es[|es| - 1]);
    }
  }

  /** A resolved row never changes again, in any continuation of any run, whatever fails. */
  lemma {:induction false} ResolvedIsTerminal(es: seq<Event>, more: seq<Event>, id: string)
    requires id in Run(es).alerts && Run(es).alerts[id].state == Resolved
    ensures id in Run(es + more).alerts && Run(es + more).alerts[id] == Run(es).alerts[id]
  {
    if more == [] {
      assert es + more == es;
    } else {
      var n := |more| - 1;
      assert (es + more)[..|es + more| - 1] == es + more[..n];
      ResolvedIsTerminal(es, more[..n], id);
      RunKeepsInv(es + more[..n]);
      StepKeepsResolved(Run(es + more[..n]), more[n], id);
    }
  }

  lemma StepKeepsResolved(s: State, ev: Event, id: string)
    requires Inv(s) && id in s.alerts && s.alerts[id].state == Resolved
    ensures id in Next(s, ev).alerts && Next(s, ev).alerts[id] == s.alerts[id]
  {
  }

  // ---- at most one active row per rule ----

  predicate Unique(t: Table) {
    forall a, b :: a in t && b in t && t[a].rule == t[b].rule && Active(t[a]) && Active(t[b]) ==> a == b
  }

  /** The step commits the new row of an evaluation whose read missed the rule's active one. */
  predicate BlindCommit(s: State, ev: Event) {
    ev == Write(true) && s.pc.Writing? && s.pc.blind
  }

  /** At every moment of the run. */
  predicate AlwaysUnique(es: seq<Event>) {
    Unique(Run(es).alerts) && (es != [] ==> AlwaysUnique(es[..|es| - 1]))
  }

  ghost predicate NoBlindCommit(es: seq<Event>) {
    forall n :: 0 <= n < |es| ==> !BlindCommit(Run(es[..n]), es[n])
  }

  lemma StepUniqueIff(s: State, ev: Event)
    requires Inv(s) && Unique(s.alerts)
    ensures Unique(Next(s, ev).alerts) <==> !BlindCommit(s, ev)
  {
    var t := Next(s, ev).alerts;
    if ev.Acknowledge? {
      AcknowledgeKeepsActive(s.alerts, ev.id, ev.at);
    } else if BlindCommit(s, ev) {
      var c := s.pc.copy;
      var id :| id in s.alerts && s.alerts[id].rule == c.rule && Active(s.alerts[id]);
      assert id != c.id && t[id] == s.alerts[id] && Active(t[c.id]) && t[c.id].rule == c.rule;
    }
  }

  /**
   * In any run, whatever fails and wherever acknowledgements fall, each rule has at most one active row
   * at every moment if and only if no write commits the new row of an evaluation whose read failed while
   * the rule had an active one.
   */
  lemma {:induction false} OneActiveRowIff(es: seq<Event>)
    ensures AlwaysUnique(es) <==> NoBlindCommit(es)
  {
    if es == [] {
    } else {
      var before, last := es[..|es| - 1], es[|es| - 1];
      OneActiveRowIff(before);
      RunKeepsInv(before);
      NoBlindCommitSnoc(es);
      if AlwaysUnique(before) {
        StepUniqueIff(Run(before), last);
      }
    }
  }

  lemma NoBlindCommitSnoc(es: seq<Event>)
    requires es != []
    ensures NoBlindCommit(es) <==> NoBlindCommit(es[..|es| - 1]) && !BlindCommit(Run(es[..|es| - 1]), es[|es| - 1])
  {
    var n := |es| - 1;
    assert forall k :: 0 <= k < n ==> es[..n][..k] == es[..k] && es[..n][k] == es[k];
  }

  /**
   * A failed read is taken for "no active alert": a triggered evaluation then keeps the rows unique if and
   * only if the rule really had no active row or the write fails too.
   */
  lemma FailedReadDuplicatesIff(s: State, ev: Event, commits: bool)
    requires Inv(s) && Unique(s.alerts) && ev.Read? && ev.fails && ev.trigger && Enabled(s, ev)
    ensures Unique(Next(Next(s, ev), Write(commits)).alerts) <==> NoneActive(s.alerts, ev.rule.id) || !commits
  {
    StepKeepsInv(s, ev);
    StepUniqueIff(Next(s, ev), Write(commits));
  }

  predicate ReadsSucceed(es: seq<Event>) {
    forall ev :: ev in es ==> (ev.Read? ==> !ev.fails)
  }

  lemma {:induction false} SuccessfulReadsSee(es: seq<Event>)
    requires ReadsSucceed(es)
    ensures Run(es).pc.Writing? ==> !Run(es).pc.blind
  {
    if es != [] {
      SuccessfulReadsSee(es[..|es| - 1]);
    }
  }

  /** In particular it always has when no read fails, even with failed writes. */
  lemma OneActiveRowPerRule(es: seq<Event>)
    requires ReadsSucceed(es)
    ensures AlwaysUnique(es)
  {
    forall n | 0 <= n < |es| ensures !BlindCommit(Run(es[..n]), es[n]) {
      SuccessfulReadsSee(es[..n]);
    }
    OneActiveRowIff(es);
  }

  function FirstState(rule: Rule): AlertState {
    if rule.forNanos == 0 then Firing else Pending
  }

  /** A triggered evaluation that finds nothing, and whose write commits, adds one row. */
  lemma AddsRow(s: State, ev: Event)
    requires s.pc == Idle && ev.Read? && ev.trigger && ev.found == None && Enabled(s, ev)
    ensures var s' := Next(Next(s, ev), Write(true));
            var row := Row(ev.rule.id, FirstState(ev.rule), ev.now / SECOND, ev.now / SECOND);
            && s'.alerts == s.alerts[ev.freshId := row] && s'.pc == Idle && s'.clock == ev.now
            && s'.born == s.born[ev.freshId := |s.evals|] && |s'.evals| == |s.evals| + 1
            && s'.log == (if ev.rule.forNanos == 0 then s.log + [FireMessage(ev.freshId)] else s.log)
  {
    var s1 := Next(s, ev);
    assert s1.alerts == s.alerts && s1.pc.Writing? && s1.pc.copy.id == ev.freshId;
  }

  /** The run of one triggered evaluation at time 0. */
  function First(rule: Rule, id: string): seq<Event> {
    [Read(rule, 0, true, None, false, id), Write(true)]
  }

  lemma Created(rule: Rule, id: string) returns (s: State)
    ensures s == Run(First(rule, id))
    ensures s.alerts == map[id := Row(rule.id, FirstState(rule), 0, 0)] && s.pc == Idle && s.clock == 0
    ensures s.log == if rule.forNanos == 0 then [FireMessage(id)] else []
    ensures s.born == map[id := 0] && |s.evals| == 1
  {
    var start := Run([]);
    UnrollTwo([], Read(rule, 0, true, None, false, id), Write(true));
    assert [] + First(rule, id) == First(rule, id);
    AddsRow(start, Read(rule, 0, true, None, false, id));
    s := Run(First(rule, id));
  }

  /** The same run, and then a triggered evaluation at time 1 whose read fails. */
  function Doubled(rule: Rule, first: string, second: string): seq<Event> {
    First(rule, first) + [Read(rule, 1, true, None, true, second), Write(true)]
  }

  lemma DoubledRows(rule: Rule, first: string, second: string) returns (s: State)
    requires first != second
    ensures s == Run(Doubled(rule, first, second))
    ensures var row := Row(rule.id, FirstState(rule), 0, 0); s.alerts == map[first := row, second := row]
    ensures s.pc == Idle && s.clock == 1 && s.born == map[first := 0, second := 1] && |s.evals| == 2
  {
    var created := Created(rule, first);
    var blind := Read(rule, 1, true, None, true, second);
    UnrollTwo(First(rule, first), blind, Write(true));
    assert Enabled(created, blind);
    AddsRow(created, blind);
    s := Run(Doubled(rule, first, second));
  }

  /** And it can fail: one failed read is enough. */
  lemma FailedReadDuplicates(rule: Rule, first: string, second: string)
    requires first != second
    ensures !Unique(Run(Doubled(rule, first, second)).alerts)
  {
    var s := DoubledRows(rule, first, second);
    assert Active(s.alerts[first]) && Active(s.alerts[second]);
  }

  // ---- acknowledgements ----

  /**
   * An acknowledgement that lands between the read and the write of a still-triggered evaluation is
   * kept if and only if that write fails: a successful write puts the stale state back.
   */
  lemma AcknowledgementKeptIff(s: State, at: nat, commits: bool)
    requires Inv(s) && s.pc.Writing? && s.pc.copy.state == Firing
    requires s.pc.copy.id in s.alerts && s.alerts[s.pc.copy.id].state == Firing
    ensures var id := s.pc.copy.id;
            var acked := Next(s, Acknowledge(id, at));
            acked.alerts[id].state == Acknowledged
            && (Next(acked, Write(commits)).alerts[id].state == Acknowledged <==> !commits)
  {
  }

  /** Such a run: an alert that fires at once is acknowledged in the middle of its next evaluation. */
  lemma AcknowledgementLost(rule: Rule, id: string, other: string)
    requires rule.forNanos == 0 && id != other
    ensures var evaluated := First(rule, id) + [Read(rule, SECOND, true, Some(id), false, other)];
            var acked := evaluated + [Acknowledge(id, SECOND)];
            id in Run(acked).alerts && Run(acked).alerts[id].state == Acknowledged
            && id in Run(acked + [Write(true)]).alerts && Run(acked + [Write(true)]).alerts[id].state == Firing
  {
    var s := Created(rule, id);
    var again := Read(rule, SECOND, true, Some(id), false, other);
    assert Enabled(s, again);
    RunKeepsInv(First(rule, id));
    StepKeepsInv(s, again);
    Unroll(First(rule, id), again);
    Unroll(First(rule, id) + [again], Acknowledge(id, SECOND));
    Unroll(First(rule, id) + [again] + [Acknowledge(id, SECOND)], Write(true));
    AcknowledgementKeptIff(Next(s, again), SECOND, true);
  }

  // ---- messages ----

  predicate LogInOrder(log: seq<Message>) {
    && (forall i, j :: 0 <= i < j < |log| ==> log[i] != log[j])
    && (forall j :: 0 <= j < |log| && log[j].RecoveryMessage? ==> FireMessage(log[j].id) in log[..j])
  }

  /** What has been announced about an alert whose current state is `state`. */
  predicate Announced(log: seq<Message>, id: string, state: AlertState) {
    match state
    case Pending => FireMessage(id) !in log && RecoveryMessage(id) !in log
    case Firing => FireMessage(id) in log && RecoveryMessage(id) !in log
    case Acknowledged => FireMessage(id) in log && RecoveryMessage(id) !in log
    case Resolved => true
  }

  predicate BeingWritten(s: State, id: string) {
    s.pc.Writing? && s.pc.copy.id == id
  }

  predicate MessageInv(s: State) {
    && LogInOrder(s.log)
    && (forall id :: id in s.alerts && !BeingWritten(s, id) ==> Announced(s.log, id, s.alerts[id].state))
    && (s.pc.Writing? ==>
          Announced(s.log, s.pc.copy.id, if s.pc.recovery then Firing else s.pc.copy.state))
    && (forall m :: m in s.log ==> m.id in s.born)
  }

  lemma AppendMessage(log: seq<Message>, m: Message)
    requires LogInOrder(log) && m !in log
    requires m.RecoveryMessage? ==> FireMessage(m.id) in log
    ensures LogInOrder(log + [m])
  {
    var longer := log + [m];
    forall j | 0 <= j < |longer| && longer[j].RecoveryMessage?
      ensures FireMessage(longer[j].id) in longer[..j]
    {
      assert longer[..j] == log[..j];
      assert log[..|log|] == log;
    }
  }

  lemma NewReadKeepsMessages(s: State, ev: Event)
    requires Inv(s) && MessageInv(s) && ev.Read? && Enabled(s, ev) && ev.found == None
    ensures MessageInv(Next(s, ev))
  {
    var s' := Next(s, ev);
    if s'.log != s.log {
      var id := s'.pc.copy.id;
      assert id !in s.born;
      AppendMessage(s.log, FireMessage(id));
    }
  }

  lemma FoundReadKeepsMessages(s: State, ev: Event)
    requires Inv(s) && MessageInv(s) && ev.Read? && Enabled(s, ev) && ev.found.Some?
    ensures MessageInv(Next(s, ev))
  {
    var s' := Next(s, ev);
    if s'.log != s.log {
      var id := s'.pc.copy.id;
      assert FireMessage(id) !in s.log;
      AppendMessage(s.log, FireMessage(id));
    }
  }

  lemma ReadKeepsMessages(s: State, ev: Event)
    requires Inv(s) && MessageInv(s) && ev.Read? && Enabled(s, ev)
    ensures MessageInv(Next(s, ev))
  {
    if ev.found == None {
      NewReadKeepsMessages(s, ev);
    } else {
      FoundReadKeepsMessages(s, ev);
    }
  }

  lemma RecoveryKeepsMessages(s: State)
    requires Inv(s) && MessageInv(s) && s.pc.Writing? && s.pc.recovery
    ensures MessageInv(Next(s, Write(true)))
  {
    AppendMessage(s.log, RecoveryMessage(s.pc.copy.id));
  }

  lemma WriteKeepsMessages(s: State)
    requires Inv(s) && MessageInv(s) && s.pc.Writing?
    ensures MessageInv(Next(s, Write(true)))
  {
    if s.pc.recovery {
      RecoveryKeepsMessages(s);
    }
  }

  lemma {:induction false} RunKeepsMessages(es: seq<Event>)
    requires WritesSucceed(es)
    ensures MessageInv(Run(es))
  {
    if es != [] {
      var n := |es| - 1;
      RunKeepsMessages(es[..n]);
      RunKeepsInv(es[..n]);
      match es[n]
      case Read(_, _, _, _, _, _) =>
        if Enabled(Run(es[..n]), es[n]) {
          ReadKeepsMessages(Run(es[..n]), es[n]);
        }
      case Write(commits) =>
        if Enabled(Run(es[..n]), es[n]) {
          WriteKeepsMessages(Run(es[..n]));
        }
      case Acknowledge(_, _) =>
    }
  }

  /**
   * When writes succeed, each alert sends at most one firing and at most one recovery message, and a
   * recovery message only after its firing message, whatever reads fail.
   */
  lemma MessagesOnceAndInOrder(es: seq<Event>, i: nat, j: nat)
    requires WritesSucceed(es)
    requires j < |Run(es).log|
    ensures i < j ==> Run(es).log[i] != Run(es).log[j]
    ensures Run(es).log[j].RecoveryMessage? ==>
              exists k :: 0 <= k < j && Run(es).log[k] == FireMessage(Run(es).log[j].id)
  {
    RunKeepsMessages(es);
    var log := Run(es).log;
    if log[j].RecoveryMessage? {
      var k :| 0 <= k < |log[..j]| && log[..j][k] == FireMessage(log[j].id);
      assert log[k] == FireMessage(log[j].id);
    }
  }

  function Run3(s: State, a: Event, b: Event, c: Event): State {
    Next(Next(Next(s, a), b), c)
  }

  /**
   * When an alert has fired, the next triggered evaluation that reads it announces it again if and only
   * if the write of the first one was lost.
   */
  lemma FiresAgainIff(s: State, first: Event, commits: bool, second: Event)
    requires Inv(s) && first.Read? && first.trigger && first.found.Some? && Enabled(s, first)
    requires Due(Load(s.alerts, first.found.value), first.rule, first.now)
    requires second.Read? && second.trigger && second.rule == first.rule && second.found == first.found
    requires Enabled(Next(Next(s, first), Write(commits)), second)
    ensures var fire, log := FireMessage(first.found.value), Run3(s, first, Write(commits), second).log;
            if commits then log == s.log + [fire] else log == s.log + [fire, fire]
  {
    var s1 := Next(s, first);
    var s2 := Next(s1, Write(commits));
    assert s2.log == s.log + [FireMessage(first.found.value)];
    if !commits {
      assert s2.alerts == s.alerts;
    }
  }

  /** Such a run: the write of a firing alert is lost and the next evaluation announces it again. */
  lemma LostWriteFiresTwice(rule: Rule, id: string, b: string, c: string)
    requires rule.forNanos > 0 && id != b && id != c && b != c
    ensures Run(First(rule, id) + [Read(rule, rule.forNanos, true, Some(id), false, b), Write(false)]
                + [Read(rule, rule.forNanos, true, Some(id), false, c)]).log == [FireMessage(id), FireMessage(id)]
  {
    var s := Created(rule, id);
    var e2 := Read(rule, rule.forNanos, true, Some(id), false, b);
    var e3 := Read(rule, rule.forNanos, true, Some(id), false, c);
    UnrollTwo(First(rule, id), e2, Write(false));
    Unroll(First(rule, id) + [e2, Write(false)], e3);
    RunKeepsInv(First(rule, id));
    assert Enabled(s, e2);
    var s2 := Next(Next(s, e2), Write(false));
    assert s2.alerts == s.alerts && s2.born == s.born && s2.pc == Idle && s2.clock == rule.forNanos;
    assert Enabled(s2, e3);
    FiresAgainIff(s, e2, false, e3);
  }

  // ---- timing ----

  /** The alert was created at evaluation `birth` of its rule, at the second the row says. */
  predicate BornAt(evals: seq<Evaluation>, id: string, rule: string, birth: nat, startedAt: nat) {
    birth < |evals| && evals[birth].alert == Some(id) && evals[birth].birth == birth
    && evals[birth].rule == rule && evals[birth].now / SECOND == startedAt
  }

  predicate HasFired(s: State, id: string) {
    id in s.firedAt && s.firedAt[id] < |s.evals|
    && s.evals[s.firedAt[id]].fired && s.evals[s.firedAt[id]].alert == Some(id)
  }

  predicate Timed(s: State, id: string, rule: string, state: AlertState, startedAt: nat) {
    if state == Pending then id in s.born && BornAt(s.evals, id, rule, s.born[id], startedAt)
    else if state == Resolved then true
    else HasFired(s, id)
  }

  /** Evaluation j fired only when its alert was old enough. */
  predicate NotEarly(evals: seq<Evaluation>, j: nat)
    requires j < |evals|
  {
    var e := evals[j];
    e.fired ==>
      && e.birth <= j && evals[e.birth].alert == e.alert
      && e.now - evals[e.birth].now > e.forNanos - SECOND
  }

  /** By evaluation j its alert has fired if the rule's time has passed since its creation. */
  predicate NotLate(evals: seq<Evaluation>, j: nat)
    requires j < |evals|
  {
    var e := evals[j];
    e.alert.Some? ==>
      && e.birth <= j && evals[e.birth].alert == e.alert
      && (e.now - evals[e.birth].now >= e.forNanos ==>
            exists k :: 0 <= k <= j && evals[k].fired && evals[k].alert == e.alert)
  }

  predicate KnownBirth(s: State, id: string) {
    id in s.born && s.born[id] < |s.evals| && s.evals[s.born[id]].alert == Some(id)
  }

  predicate Checked(evals: seq<Evaluation>) {
    forall j :: 0 <= j < |evals| ==> NotEarly(evals, j) && NotLate(evals, j)
  }

  predicate RowTimed(s: State, id: string)
    requires id in s.alerts
  {
    && Timed(s, id, s.alerts[id].rule, s.alerts[id].state, s.alerts[id].startedAt)
    && (Active(s.alerts[id]) ==> KnownBirth(s, id))
  }

  predicate CopyTimed(s: State) {
    s.pc.Writing? ==>
      && KnownBirth(s, s.pc.copy.id)
      && Timed(s, s.pc.copy.id, s.pc.copy.rule, s.pc.copy.state, s.pc.copy.startedAt / SECOND)
  }

  predicate TimeInv(s: State) {
    && (forall id :: id in s.alerts ==> RowTimed(s, id))
    && CopyTimed(s)
    && (forall id :: id in s.firedAt ==> id in s.born)
    && Checked(s.evals)
  }

  lemma CheckedAppend(evals: seq<Evaluation>, e: Evaluation)
    requires Checked(evals)
    requires NotEarly(evals + [e], |evals|) && NotLate(evals + [e], |evals|)
    ensures Checked(evals + [e])
  {
    var longer := evals + [e];
    forall j | 0 <= j < |longer| ensures NotEarly(longer, j) && NotLate(longer, j) {
      if j < |evals| {
        assert NotEarly(evals, j) && NotLate(evals, j);
        if longer[j].alert.Some? && longer[j].now - longer[longer[j].birth].now >= longer[j].forNanos {
          var k :| 0 <= k <= j && evals[k].fired && evals[k].alert == evals[j].alert;
          assert longer[k].fired && longer[k].alert == longer[j].alert;
        }
      }
    }
  }

  lemma FloorOfProduct(n: nat)
    ensures n * SECOND / SECOND == n
  {
  }

  lemma FloorWithin(now: nat)
    ensures now / SECOND * SECOND <= now < now / SECOND * SECOND + SECOND
  {
  }

  /** What an evaluation that triggered appends to the history passes both checks. */
  lemma TriggeredIsChecked(s: State, ev: Event)
    requires Inv(s) && TimeInv(s) && ev.Read? && ev.trigger && Enabled(s, ev)
    ensures Checked(Next(s, ev).evals)
  {
    var n, s' := |s.evals|, Next(s, ev);
    var e := s'.evals[n];
    if ev.found == None {
      assert e.birth == n;
      if e.fired { assert s'.evals[n].fired; }
    } else {
      var id := ev.found.value;
      var row := s.alerts[id];
      assert RowTimed(s, id) && e.birth == s.born[id];
      FloorWithin(s.evals[e.birth].now);
      if row.state != Pending {
        assert s'.evals[s.firedAt[id]].fired && s'.evals[s.firedAt[id]].alert == e.alert;
      } else if e.fired {
        assert s'.evals[n].fired;
      }
    }
    CheckedAppend(s.evals, e);
  }

  /** The state grew by one evaluation; a firing may only have been added. */
  predicate Extends(s: State, s': State) {
    && |s'.evals| == |s.evals| + 1 && s'.evals[..|s.evals|] == s.evals
    && (forall id :: id in s.born ==> id in s'.born && s'.born[id] == s.born[id])
    && (forall id :: id in s.firedAt ==>
          id in s'.firedAt && (s'.firedAt[id] == s.firedAt[id] || HasFired(s', id)))
  }

  lemma ReadExtends(s: State, ev: Event)
    requires Inv(s) && TimeInv(s) && ev.Read? && Enabled(s, ev)
    ensures Extends(s, Next(s, ev))
  {
    assert Next(s, ev).evals[..|s.evals|] == s.evals;
  }

  lemma ExtendKeepsTimed(s: State, s': State, id: string, rule: string, state: AlertState, startedAt: nat)
    requires Extends(s, s')
    ensures Timed(s, id, rule, state, startedAt) ==> Timed(s', id, rule, state, startedAt)
    ensures KnownBirth(s, id) ==> KnownBirth(s', id)
  {
    assert forall i :: 0 <= i < |s.evals| ==> s'.evals[i] == s'.evals[..|s.evals|][i];
  }

  lemma ReadKeepsRows(s: State, ev: Event)
    requires Inv(s) && TimeInv(s) && ev.Read? && Enabled(s, ev)
    ensures forall id :: id in Next(s, ev).alerts ==> RowTimed(Next(s, ev), id)
  {
    ReadExtends(s, ev);
    forall id | id in s.alerts ensures RowTimed(Next(s, ev), id) {
      assert RowTimed(s, id);
      ExtendKeepsTimed(s, Next(s, ev), id, s.alerts[id].rule, s.alerts[id].state, s.alerts[id].startedAt);
    }
  }

  lemma FoundReadKeepsCopy(s: State, ev: Event)
    requires Inv(s) && TimeInv(s) && ev.Read? && Enabled(s, ev) && ev.found.Some?
    ensures CopyTimed(Next(s, ev))
  {
    var s', id := Next(s, ev), ev.found.value;
    var row := s.alerts[id];
    ReadExtends(s, ev);
    assert RowTimed(s, id);
    FloorOfProduct(row.startedAt);
    ExtendKeepsTimed(s, s', id, row.rule, row.state, row.startedAt);
  }

  lemma NewReadKeepsCopy(s: State, ev: Event)
    requires Inv(s) && TimeInv(s) && ev.Read? && Enabled(s, ev) && ev.found.None?
    ensures CopyTimed(Next(s, ev))
  {
  }

  lemma ReadKeepsTime(s: State, ev: Event)
    requires Inv(s) && TimeInv(s) && ev.Read? && Enabled(s, ev)
    ensures TimeInv(Next(s, ev))
  {
    ReadKeepsRows(s, ev);
    if ev.found.Some? {
      FoundReadKeepsCopy(s, ev);
    } else {
      NewReadKeepsCopy(s, ev);
    }
    if ev.trigger {
      TriggeredIsChecked(s, ev);
    } else {
      CheckedAppend(s.evals, Next(s, ev).evals[|s.evals|]);
    }
  }

  lemma WriteKeepsTime(s: State, commits: bool)
    requires Inv(s) && TimeInv(s) && s.pc.Writing?
    ensures TimeInv(Next(s, Write(commits)))
  {
    var s', c := Next(s, Write(commits)), s.pc.copy;
    if c.id in s.alerts {
      FloorOfProduct(s.alerts[c.id].startedAt);
    }
    forall id | id in s'.alerts ensures RowTimed(s', id) {
      if id != c.id || !commits {
        assert RowTimed(s, id);
      }
    }
  }

  lemma AcknowledgeKeepsTime(s: State, id: string, at: nat)
    requires Inv(s) && TimeInv(s)
    ensures TimeInv(Next(s, Acknowledge(id, at)))
  {
    var s' := Next(s, Acknowledge(id, at));
    forall a | a in s'.alerts ensures RowTimed(s', a) {
      assert RowTimed(s, a);
    }
  }

  lemma {:induction false} RunKeepsTime(es: seq<Event>)
    ensures TimeInv(Run(es))
  {
    if es != [] {
      var n := |es| - 1;
      RunKeepsTime(es[..n]);
      RunKeepsInv(es[..n]);
      if Enabled(Run(es[..n]), es[n]) {
        match es[n]
        case Read(_, _, _, _, _, _) => ReadKeepsTime(Run(es[..n]), es[n]);
        case Write(commits) => WriteKeepsTime(Run(es[..n]), commits);
        case Acknowledge(id, at) => AcknowledgeKeepsTime(Run(es[..n]), id, at);
      }
    }
  }

  /**
   * In any run, whatever fails, an alert fires only when more than its rule's time less one second has
   * passed since the evaluation that created it (its start is stored in whole seconds).
   */
  lemma FiresNotEarly(es: seq<Event>, j: nat)
    requires j < |Run(es).evals| && Run(es).evals[j].fired
    ensures var evals := Run(es).evals;
            var b := evals[j].birth;
            b <= j && evals[b].alert == evals[j].alert
            && evals[j].now - evals[b].now > evals[j].forNanos - SECOND
  {
    RunKeepsTime(es);
    assert NotEarly(Run(es).evals, j);
  }

  /** And it has fired by the first triggering evaluation at which the rule's full time has passed. */
  lemma FiresNotLate(es: seq<Event>, j: nat)
    requires j < |Run(es).evals| && Run(es).evals[j].trigger && Run(es).evals[j].alert.Some?
    ensures var evals := Run(es).evals;
            var b := evals[j].birth;
            b <= j && evals[b].alert == evals[j].alert
            && (evals[j].now - evals[b].now >= evals[j].forNanos ==>
                  exists k :: 0 <= k <= j && evals[k].fired && evals[k].alert == evals[j].alert)
  {
    RunKeepsTime(es);
    assert NotLate(Run(es).evals, j);
  }

  // ---- when an alert that fires has triggered throughout ----

  /** Every evaluation of the rule from index `birth` on found its condition triggered. */
  predicate TriggeredSince(evals: seq<Evaluation>, rule: string, birth: nat) {
    forall i :: birth <= i < |evals| && evals[i].rule == rule ==> evals[i].trigger
  }

  predicate Resolving(s: State, id: string) {
    s.pc.Writing? && s.pc.copy.id == id && s.pc.copy.state == Resolved
  }

  /**
   * A pause passes over a pending row: an evaluation of its rule that does not trigger reads another row or
   * none, or the write that would resolve it is lost.
   */
  predicate Misses(s: State, ev: Event, id: string) {
    && id in s.alerts && s.alerts[id].state == Pending
    && match ev
       case Read(rule, _, trigger, found, _, _) =>
         Enabled(s, ev) && !trigger && rule.id == s.alerts[id].rule && found != Some(id)
       case Write(commits) => !commits && Resolving(s, id)
       case Acknowledge(_, _) => false
  }

  predicate EverMissed(es: seq<Event>, id: string) {
    es != [] && (EverMissed(es[..|es| - 1], id) || Misses(Run(es[..|es| - 1]), es[|es| - 1], id))
  }

  predicate StillTriggered(s: State, id: string, rule: string) {
    id in s.born && TriggeredSince(s.evals, rule, s.born[id])
  }

  /** The last evaluation is the one whose copy is being written, and its alert was born no later. */
  predicate LastEvaluation(s: State) {
    s.pc.Writing? ==>
      var n, c := |s.evals| - 1, s.pc.copy;
      && n >= 0 && s.evals[n].rule == c.rule && (c.state == Resolved <==> !s.evals[n].trigger)
      && c.id in s.born && s.born[c.id] <= n
      && (c.id !in s.alerts ==> s.born[c.id] == n)
  }

  predicate BornBefore(s: State) {
    && (forall id :: id in s.born ==> s.born[id] < |s.evals|)
    && (forall id :: id in s.alerts ==> id in s.born)
  }

  lemma StepKeepsLast(s: State, ev: Event)
    requires Inv(s) && LastEvaluation(s) && BornBefore(s)
    ensures LastEvaluation(Next(s, ev)) && BornBefore(Next(s, ev))
  {
  }

  lemma {:induction false} RunKeepsLast(es: seq<Event>)
    ensures LastEvaluation(Run(es)) && BornBefore(Run(es))
  {
    if es != [] {
      RunKeepsLast(es[..|es| - 1]);
      RunKeepsInv(es[..|es| - 1]);
      StepKeepsLast(Run(es[..|es| - 1]), es[|es| - 1]);
    }
  }

  lemma {:induction false} OnlyRowsAreMissed(es: seq<Event>, id: string)
    requires EverMissed(es, id)
    ensures id in Run(es).alerts
  {
    if EverMissed(es[..|es| - 1], id) {
      OnlyRowsAreMissed(es[..|es| - 1], id);
    }
  }

  lemma TriggeredSnoc(evals: seq<Evaluation>, e: Evaluation, rule: string, birth: nat)
    requires birth <= |evals|
    ensures TriggeredSince(evals + [e], rule, birth) <==>
            TriggeredSince(evals, rule, birth) && (e.rule == rule ==> e.trigger)
  {
    var longer := evals + [e];
    assert longer[|evals|] == e;
    assert forall i :: 0 <= i < |evals| ==> longer[i] == evals[i];
  }

  lemma ReadMissesIff(s: State, ev: Event, id: string)
    requires Inv(s) && BornBefore(s) && ev.Read? && Enabled(s, ev)
    requires id in s.alerts && s.alerts[id].state == Pending && !Resolving(Next(s, ev), id)
    ensures StillTriggered(Next(s, ev), id, s.alerts[id].rule) <==>
            StillTriggered(s, id, s.alerts[id].rule) && !Misses(s, ev, id)
  {
    var s' := Next(s, ev);
    TriggeredSnoc(s.evals, s'.evals[|s.evals|], s.alerts[id].rule, s.born[id]);
  }

  /** A write that leaves a row pending that was none of its business, or was being fired or kept. */
  lemma WriteMissesIff(s: State, ev: Event, id: string)
    requires Inv(s) && LastEvaluation(s) && BornBefore(s) && ev.Write? && s.pc.Writing?
    requires id in s.alerts && s.alerts[id].state == Pending && Next(s, ev).alerts[id].state == Pending
    ensures Misses(s, ev, id) ==> !StillTriggered(Next(s, ev), id, s.alerts[id].rule)
    ensures !Misses(s, ev, id) ==> !Resolving(s, id)
    ensures StillTriggered(Next(s, ev), id, s.alerts[id].rule) <==> StillTriggered(s, id, s.alerts[id].rule)
    ensures Next(s, ev).alerts[id].rule == s.alerts[id].rule
  {
    if Misses(s, ev, id) {
      var n := |s.evals| - 1;
      assert s.born[id] <= n && s.evals[n].rule == s.alerts[id].rule && !s.evals[n].trigger;
    }
  }

  lemma NewRowTriggered(s: State, ev: Event, id: string)
    requires Inv(s) && LastEvaluation(s) && BornBefore(s)
    requires id !in s.alerts && id in Next(s, ev).alerts && Next(s, ev).alerts[id].state == Pending
    ensures StillTriggered(Next(s, ev), id, Next(s, ev).alerts[id].rule)
  {
  }

  /**
   * In any run, whatever fails, every evaluation of the rule since a pending row's creation triggered if and
   * only if no step of the run passed over that row in a pause.
   */
  lemma {:induction false} PendingTriggeredIff(es: seq<Event>, id: string)
    requires id in Run(es).alerts && Run(es).alerts[id].state == Pending && !Resolving(Run(es), id)
    ensures StillTriggered(Run(es), id, Run(es).alerts[id].rule) <==> !EverMissed(es, id)
  {
    var before, ev := es[..|es| - 1], es[|es| - 1];
    var s := Run(before);
    RunKeepsInv(before);
    RunKeepsLast(before);
    if id !in s.alerts {
      NewRowTriggered(s, ev, id);
      if EverMissed(before, id) {
        OnlyRowsAreMissed(before, id);
      }
    } else if !Enabled(s, ev) {
      PendingTriggeredIff(before, id);
    } else if ev.Read? {
      PendingTriggeredIff(before, id);
      ReadMissesIff(s, ev, id);
    } else if ev.Write? {
      StillPending(s, ev, id);
      WriteMissesIff(s, ev, id);
      if !Misses(s, ev, id) {
        PendingTriggeredIff(before, id);
      }
    } else {
      StillPending(s, ev, id);
      PendingTriggeredIff(before, id);
    }
  }

  /** No stored row becomes pending. */
  lemma StillPending(s: State, ev: Event, id: string)
    requires Inv(s) && id in s.alerts && id in Next(s, ev).alerts && Next(s, ev).alerts[id].state == Pending
    ensures s.alerts[id].state == Pending && Next(s, ev).alerts[id].rule == s.alerts[id].rule
    ensures !ev.Write? ==> Next(s, ev).alerts[id] == s.alerts[id]
  {
  }

  /** The steps before evaluation j. */
  function Before(es: seq<Event>, j: nat): (before: seq<Event>)
    requires j < |Run(es).evals|
    ensures |before| < |es|
  {
    var shorter := es[..|es| - 1];
    if j < |Run(shorter).evals| then Before(shorter, j) else shorter
  }

  /** The evaluation that fired had triggered at each of its rule's evaluations since its alert's creation. */
  predicate TriggeredThroughout(evals: seq<Evaluation>, j: nat)
    requires j < |evals|
  {
    TriggeredSince(evals[..j + 1], evals[j].rule, evals[j].birth)
  }

  lemma StepKeepsEvaluations(s: State, ev: Event)
    ensures s.evals <= Next(s, ev).evals && |Next(s, ev).evals| <= |s.evals| + 1
  {
  }

  lemma {:induction false} BeforeSplits(es: seq<Event>, j: nat)
    requires j < |Run(es).evals|
    ensures var before := Before(es, j);
            && before == es[..|before|]
            && |Run(before).evals| == j && |Run(before + [es[|before|]]).evals| == j + 1
            && Run(before + [es[|before|]]).evals == Run(es).evals[..j + 1]
  {
    var shorter := es[..|es| - 1];
    StepKeepsEvaluations(Run(shorter), es[|es| - 1]);
    assert es == shorter + [es[|es| - 1]];
    if j < |Run(shorter).evals| {
      BeforeSplits(shorter, j);
      var before := Before(shorter, j);
      assert before == es[..|before|] && shorter[|before|] == es[|before|];
      assert Run(shorter).evals[..j + 1] == Run(es).evals[..j + 1];
    } else {
      assert Run(es).evals[..j + 1] == Run(es).evals;
    }
  }

  /** What the step of a firing evaluation found: a new alert, or a pending row that was due. */
  lemma FiringStep(s: State, ev: Event)
    requires Inv(s) && |Next(s, ev).evals| == |s.evals| + 1 && Next(s, ev).evals[|s.evals|].fired
    ensures ev.Read? && Enabled(s, ev) && ev.trigger
    ensures var e := Next(s, ev).evals[|s.evals|];
            && e.rule == ev.rule.id && e.trigger && e.alert.Some?
            && (ev.found == None ==> e.birth == |s.evals| && e.alert.value !in s.alerts)
            && (ev.found.Some? ==> ev.found == e.alert && e.alert.value in s.alerts && e.alert.value in s.born
                                   && s.alerts[e.alert.value].state == Pending && s.alerts[e.alert.value].rule == e.rule
                                   && e.birth == s.born[e.alert.value])
  {
  }

  /**
   * In any run, whatever fails, an alert that fires has triggered at every evaluation of its rule since its
   * creation if and only if no step before had passed over its row in a pause.
   */
  lemma FiredThroughoutIff(es: seq<Event>, j: nat)
    requires j < |Run(es).evals| && Run(es).evals[j].fired
    ensures Run(es).evals[j].alert.Some?
    ensures TriggeredThroughout(Run(es).evals, j) <==> !EverMissed(Before(es, j), Run(es).evals[j].alert.value)
  {
    var before := Before(es, j);
    var ev := es[|before|];
    BeforeSplits(es, j);
    Unroll(before, ev);
    FiringThroughoutIff(before, ev);
    assert Run(es).evals[..j + 1][j] == Run(es).evals[j];
  }

  lemma FiringThroughoutIff(es: seq<Event>, ev: Event)
    requires |Next(Run(es), ev).evals| == |Run(es).evals| + 1 && Next(Run(es), ev).evals[|Run(es).evals|].fired
    ensures var evals, n := Next(Run(es), ev).evals, |Run(es).evals|;
            evals[n].alert.Some?
            && (TriggeredSince(evals, evals[n].rule, evals[n].birth) <==> !EverMissed(es, evals[n].alert.value))
  {
    var s := Run(es);
    RunKeepsInv(es);
    RunKeepsLast(es);
    FiringStep(s, ev);
    var e := Next(s, ev).evals[|s.evals|];
    var id := e.alert.value;
    assert Next(s, ev).evals == s.evals + [e];
    TriggeredSnoc(s.evals, e, e.rule, e.birth);
    if ev.found == None {
      if EverMissed(es, id) {
        OnlyRowsAreMissed(es, id);
      }
    } else {
      PendingTriggeredIff(es, id);
    }
  }

  /** And every due evaluation that reads a pending row does fire it. */
  lemma DueFires(es: seq<Event>, ev: Event)
    requires ev.Read? && ev.trigger && ev.found.Some? && Enabled(Run(es), ev)
    requires Due(Load(Run(es).alerts, ev.found.value), ev.rule, ev.now)
    ensures var evals, n := Run(es + [ev]).evals, |Run(es).evals|;
            && |evals| == n + 1 && evals[n].fired && evals[n].alert == ev.found
            && (TriggeredThroughout(evals, n) <==> !EverMissed(es, ev.found.value))
  {
    Unroll(es, ev);
    FiringThroughoutIff(es, ev);
    var evals := Run(es + [ev]).evals;
    assert evals[..|evals|] == evals;
  }

  predicate OnlyActive(t: Table, rule: string) {
    forall a, b :: a in t && b in t && t[a].rule == rule && t[b].rule == rule && Active(t[a]) && Active(t[b]) ==> a == b
  }

  /**
   * A pause takes effect: an evaluation that does not trigger reads the rule's only active row, unless
   * it has none, and the write that resolves it commits.
   */
  predicate PauseResolves(s: State, ev: Event) {
    match ev
    case Read(rule, _, trigger, _, fails, _) =>
      Enabled(s, ev) && !trigger ==> NoneActive(s.alerts, rule.id) || (!fails && OnlyActive(s.alerts, rule.id))
    case Write(commits) => s.pc.Writing? && s.pc.copy.state == Resolved ==> commits
    case Acknowledge(_, _) => true
  }

  predicate PausesResolve(es: seq<Event>) {
    es == [] || (PausesResolve(es[..|es| - 1]) && PauseResolves(Run(es[..|es| - 1]), es[|es| - 1]))
  }

  lemma ResolvedPauseMisses(s: State, ev: Event, id: string)
    requires PauseResolves(s, ev)
    ensures !Misses(s, ev, id)
  {
  }

  lemma {:induction false} ResolvedPausesMissNothing(es: seq<Event>, n: nat, id: string)
    requires PausesResolve(es) && n <= |es|
    ensures !EverMissed(es[..n], id)
    decreases |es|
  {
    if n < |es| {
      assert es[..|es| - 1][..n] == es[..n];
      ResolvedPausesMissNothing(es[..|es| - 1], n, id);
    } else if es != [] {
      assert es[..n] == es;
      assert es[..|es| - 1][..|es| - 1] == es[..|es| - 1];
      ResolvedPausesMissNothing(es[..|es| - 1], |es| - 1, id);
      ResolvedPauseMisses(Run(es[..|es| - 1]), es[|es| - 1], id);
    }
  }

  /** In particular it has, if every pause takes effect. */
  lemma FiresOnlyIfTriggeredThroughout(es: seq<Event>, j: nat)
    requires PausesResolve(es)
    requires j < |Run(es).evals| && Run(es).evals[j].fired
    ensures TriggeredThroughout(Run(es).evals, j)
  {
    FiredThroughoutIff(es, j);
    BeforeSplits(es, j);
    ResolvedPausesMissNothing(es, |Before(es, j)|, Run(es).evals[j].alert.value);
  }

  /** Runs that pass over a pending row: the write that resolves it is lost, and the alert fires on time. */
  lemma LostPauseStillFires(rule: Rule, id: string, b: string, c: string)
    requires rule.forNanos > 0 && id != b && id != c && b != c
    ensures var es := First(rule, id) + [Read(rule, 1, false, Some(id), false, b), Write(false)]
                      + [Read(rule, rule.forNanos, true, Some(id), false, c)];
            |Run(es).evals| == 3 && Run(es).evals[2].fired && !TriggeredThroughout(Run(es).evals, 2)
  {
    var s := Created(rule, id);
    var e2, e3 := Read(rule, 1, false, Some(id), false, b), Read(rule, rule.forNanos, true, Some(id), false, c);
    UnrollTwo(First(rule, id), e2, Write(false));
    assert Enabled(s, e2);
    var s2 := Next(Next(s, e2), Write(false));
    assert s2.alerts == s.alerts && s2.born == s.born && s2.pc == Idle && s2.clock == 1 && |s2.evals| == 2;
    assert Enabled(s2, e3) && !s2.evals[1].trigger && s2.evals[1].rule == rule.id;
    Unroll(First(rule, id) + [e2, Write(false)], e3);
    var evals := Next(s2, e3).evals;
    assert evals[2].birth == 0 && evals[..3][1] == s2.evals[1];
  }

  /** Or a failed read has doubled the row, and the pause reads and resolves the other one. */
  lemma DuplicateOutlivesPause(rule: Rule, a: string, b: string, c: string, d: string)
    requires rule.forNanos >= 2 && a != b && c != a && c != b && d != a && d != b
    ensures var es := Doubled(rule, a, b) + [Read(rule, 2, false, Some(b), false, c), Write(true)]
                      + [Read(rule, rule.forNanos, true, Some(a), false, d)];
            |Run(es).evals| == 4 && Run(es).evals[3].fired && !TriggeredThroughout(Run(es).evals, 3)
  {
    var s := DoubledRows(rule, a, b);
    var pause, resume := Read(rule, 2, false, Some(b), false, c), Read(rule, rule.forNanos, true, Some(a), false, d);
    UnrollTwo(Doubled(rule, a, b), pause, Write(true));
    assert Enabled(s, pause);
    PauseResolvesOther(s, pause, a, b);
    var s2 := Next(Next(s, pause), Write(true));
    assert Enabled(s2, resume);
    Unroll(Doubled(rule, a, b) + [pause, Write(true)], resume);
    var evals := Next(s2, resume).evals;
    assert evals[3].birth == 0 && evals[..4][2] == s2.evals[2];
  }

  lemma PauseResolvesOther(s: State, pause: Event, a: string, b: string)
    requires s.pc == Idle && a != b && s.alerts.Keys == {a, b} && Active(s.alerts[b])
    requires pause.Read? && !pause.trigger && pause.found == Some(b) && Enabled(s, pause)
    ensures var s2 := Next(Next(s, pause), Write(true));
            && s2.alerts.Keys == {a, b} && s2.alerts[a] == s.alerts[a] && s2.alerts[b].state == Resolved
            && s2.pc == Idle && s2.clock == pause.now && s2.born == s.born && |s2.evals| == |s.evals| + 1
            && !s2.evals[|s.evals|].trigger && s2.evals[|s.evals|].rule == pause.rule.id
  {
  }

  // ---- the two programs' code ----

  datatype Operator = Greater | AtLeast | Less | AtMost | Equal | Unknown

  function Compare(value: real, op: Operator, threshold: real): bool {
    match op
    case Greater => value > threshold
    case AtLeast => value >= threshold
    case Less => value < threshold
    case AtMost => value <= threshold
    case Equal => value == threshold
    case Unknown => false
  }

  /** The alerts table and its queries. */
  class AlertStore {
    var alerts: Table

    constructor ()
      ensures alerts == map[]
    {
      alerts := map[];
    }

    method ActiveAlert(rule: string) returns (found: Option<string>)
      ensures MayFind(alerts, rule, found)
    {
      found := None;
      var left := set id | id in alerts && alerts[id].rule == rule && Active(alerts[id]);
      ghost var all := left;
      assert forall id :: id in alerts && alerts[id].rule == rule && Active(alerts[id]) ==> id in all;
      while left != {}
        invariant left <= all
        invariant found == None ==> left == all
        invariant found.Some? ==> found.value in all
        invariant found.Some? ==>
          forall id :: id in all - left ==> alerts[id].updatedAt <= alerts[found.value].updatedAt
      {
        var id :| id in left;
        if found == None || alerts[id].updatedAt > alerts[found.value].updatedAt {
          found := Some(id);
        }
        left := left - {id};
      }
    }

    method Put(c: Copy)
      modifies this
      ensures alerts == PutAlert(old(alerts), c)
      ensures alerts.Keys == old(alerts).Keys + {c.id} && alerts[c.id].state == c.state
      ensures c.id in old(alerts) ==>
                alerts[c.id].rule == old(alerts)[c.id].rule && alerts[c.id].startedAt == old(alerts)[c.id].startedAt
      ensures forall id :: id in old(alerts) && id != c.id ==> alerts[id] == old(alerts)[id]
    {
      if c.id in alerts {
        alerts := alerts[c.id := alerts[c.id].(state := c.state, updatedAt := c.updatedAt / SECOND)];
      } else {
        alerts := alerts[c.id := Row(c.rule, c.state, c.startedAt / SECOND, c.updatedAt / SECOND)];
      }
    }

    method AcknowledgeOne(id: string, at: nat)
      modifies this
      ensures alerts == AcknowledgeAlert(old(alerts), id, at)
    {
      if id in alerts && alerts[id].state == Firing {
        alerts := alerts[id := alerts[id].(state := Acknowledged, updatedAt := at / SECOND)];
      }
    }

    /**
     * One rule's turn in evaluateAlerts, undisturbed: it is the read step followed by a committed
     * write step, and `sent` is what those two steps announce.
     */
    method EvaluateRule(rule: Rule, value: real, op: Operator, threshold: real, now: nat, freshId: string,
                        ghost before: State) returns (sent: seq<Message>, ghost found: Option<string>)
      requires before.alerts == alerts && before.pc == Idle && now >= before.clock
      requires freshId !in alerts && freshId !in before.born
      modifies this
      ensures var ev := Read(rule, now, Compare(value, op, threshold), found, false, freshId);
              var after := Next(Next(before, ev), Write(true));
              Enabled(before, ev) && alerts == after.alerts && before.log + sent == after.log
    {
      sent := [];
      var active := ActiveAlert(rule.id);
      found := active;
      if Compare(value, op, threshold) {
        var copy := Copy(freshId, rule.id, Pending, now, now);
        if active.Some? {
          copy := Load(alerts, active.value);
        }
        copy := copy.(updatedAt := now);
        if copy.state == Pending && now - copy.startedAt >= rule.forNanos {
          copy := copy.(state := Firing);
          sent := [FireMessage(copy.id)];
        }
        Put(copy);
      } else if active.Some? {
        var copy := Load(alerts, active.value);
        var wasFiring := copy.state == Firing || copy.state == Acknowledged;
        copy := copy.(state := Resolved, updatedAt := now);
        Put(copy);
        if wasFiring && rule.notifyRecovery {
          sent := [RecoveryMessage(copy.id)];
        }
      }
    }
  }
}
