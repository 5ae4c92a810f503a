/** Login sessions: idle and absolute limits, passive checks, and the daily prune. */
module Sessions {
  import opened Wrappers

  const SECOND: nat := 1_000_000_000
  const DAY: nat := 86400

  /** A stored session; times are whole seconds. */
  datatype Row = Row(user: string, csrf: string, ip: string, created: nat, seen: nat)

  /** Keyed by token; the table's key is the token's hash. */
  type Table = map<string, Row>

  /** Nanoseconds. */
  datatype Limits = Limits(idle: nat, absolute: nat)

  datatype Event =
    | Create(token: string, user: string, csrf: string, ip: string, now: nat)
    | Request(token: string, peer: string, now: nat)
    | PassiveCheck(token: string, now: nat)
    | Logout(token: string)
    | Prune(now: nat)

  datatype Outcome = Rejected | Accepted(user: string, csrf: string)

  predicate Expired(r: Row, lim: Limits, now: nat) {
    now - r.created * SECOND > lim.absolute || now - r.seen * SECOND > lim.idle
  }

  /** The lookup shared by Session and SessionActive: an expired row is deleted. */
  function Lookup(t: Table, lim: Limits, token: string, now: nat): (Table, Option<Row>) {
    if token !in t then (t, None)
    else if Expired(t[token], lim, now) then (t - {token}, None)
    else (t, Some(t[token]))
  }

  /** An authenticated request: it extends the idle time, and a wrong peer address ends the session. */
  function Serve(t: Table, lim: Limits, token: string, peer: string, now: nat): (Table, Outcome) {
    var (found, row) := Lookup(t, lim, token, now);
    match row
    case None => (found - {token}, Rejected)
    case Some(r) =>
      if r.ip != peer then (found - {token}, Rejected)
      else (found[token := r.(seen := now / SECOND)], Accepted(r.user, r.csrf))
  }

  function PruneTable(t: Table, now: nat): Table {
    map token | token in t && !(t[token].created < now / SECOND - DAY) :: t[token]
  }

  datatype State = State(table: Table, clock: nat, outcomes: seq<Outcome>)

  function Next(s: State, lim: Limits, ev: Event): State {
    match ev
    case Create(token, user, csrf, ip, now) =>
      if token in s.table then s.(clock := now)
      else State(s.table[token := Row(user, csrf, ip, now / SECOND, now / SECOND)], now, s.outcomes)
    case Request(token, peer, now) =>
      var (table, outcome) := Serve(s.table, lim, token, peer, now);
      State(table, now, s.outcomes + [outcome])
    case PassiveCheck(token, now) => s.(table := Lookup(s.table, lim, token, now).0, clock := now)
    case Logout(token) => s.(table := s.table - {token})
    case Prune(now) => s.(table := PruneTable(s.table, now), clock := now)
  }

  function Run(lim: Limits, es: seq<Event>): State {
    if es == [] then State(map[], 0, []) else Next(Run(lim, es[..|es| - 1]), lim, es[|es| - 1])
  }

  // ---- well-formed runs ----

  function ClockAfter(clock: nat, ev: Event): nat {
    if ev.Logout? then clock else ev.now
  }

  function Clock(es: seq<Event>): nat {
    if es == [] then 0 else ClockAfter(Clock(es[..|es| - 1]), es[|es| - 1])
  }

  /** The clock never goes back. */
  predicate Monotone(es: seq<Event>) {
    es == [] || (Monotone(es[..|es| - 1]) && Clock(es[..|es| - 1]) <= Clock(es))
  }

  /** Random tokens are never drawn twice. */
  predicate Fresh(es: seq<Event>) {
    forall i, j :: 0 <= i < j < |es| && es[i].Create? && es[j].Create? ==> es[i].token != es[j].token
  }

  /** A run without its passive checks and, when `prunes`, without its prune passes. */
  function Erase(es: seq<Event>, prunes: bool): seq<Event> {
    if es == [] then []
    else
      var last := es[|es| - 1];
      var rest := Erase(es[..|es| - 1], prunes);
      if last.PassiveCheck? || (prunes && last.Prune?) then rest else rest + [last]
  }

  // ---- passive checks and prunes are invisible ----

  /** Every row of `a` is in `b`, and what only `b` still has is expired for good. */
  predicate Shadows(a: Table, b: Table, lim: Limits, now: nat) {
    && (forall token :: token in a ==> token in b && a[token] == b[token])
    && (forall token :: token in b && token !in a ==> Expired(b[token], lim, now))
  }

  lemma ShadowsLater(a: Table, b: Table, lim: Limits, now: nat, later: nat)
    requires Shadows(a, b, lim, now) && now <= later
    ensures Shadows(a, b, lim, later)
  {
  }

  /** A pruned row is at least a day and a second old. */
  lemma PrunedIsOld(r: Row, now: nat)
    requires r.created < now / SECOND - DAY
    ensures now - r.created * SECOND >= DAY * SECOND + SECOND
  {
    assert now / SECOND * SECOND <= now;
    assert (r.created + DAY + 1) * SECOND <= now / SECOND * SECOND;
  }

  lemma SameStep(a: State, b: State, lim: Limits, ev: Event)
    requires Shadows(a.table, b.table, lim, a.clock) && a.outcomes == b.outcomes
    requires ClockAfter(a.clock, ev) >= a.clock
    requires ev.Create? ==> ev.token !in b.table
    requires !ev.PassiveCheck?
    ensures Shadows(Next(a, lim, ev).table, Next(b, lim, ev).table, lim, ClockAfter(a.clock, ev))
    ensures Next(a, lim, ev).outcomes == Next(b, lim, ev).outcomes
  {
    ShadowsLater(a.table, b.table, lim, a.clock, ClockAfter(a.clock, ev));
  }

  lemma ErasedStep(a: State, b: State, lim: Limits, ev: Event)
    requires Shadows(a.table, b.table, lim, a.clock)
    requires ev.PassiveCheck? || (ev.Prune? && lim.absolute < DAY * SECOND + SECOND)
    requires ev.now >= a.clock
    ensures Shadows(Next(a, lim, ev).table, b.table, lim, ev.now)
    ensures Next(a, lim, ev).outcomes == a.outcomes
  {
    ShadowsLater(a.table, b.table, lim, a.clock, ev.now);
    if ev.Prune? {
      forall token | token in a.table && token !in PruneTable(a.table, ev.now)
        ensures Expired(a.table[token], lim, ev.now)
      {
        PrunedIsOld(a.table[token], ev.now);
      }
    }
  }

  lemma {:induction false} RunClock(lim: Limits, es: seq<Event>)
    ensures Run(lim, es).clock == Clock(es)
  {
    if es != [] {
      RunClock(lim, es[..|es| - 1]);
    }
  }

  predicate MadeBy(r: Row, token: string, ev: Event) {
    ev.Create? && ev.token == token
    && r.user == ev.user && r.csrf == ev.csrf && r.ip == ev.ip && r.created == ev.now / SECOND
  }

  /** Every row descends from the event that created its token. */
  lemma {:induction false} RowsHaveCreators(lim: Limits, es: seq<Event>, token: string)
    requires token in Run(lim, es).table
    ensures exists i :: 0 <= i < |es| && MadeBy(Run(lim, es).table[token], token, es[i])
  {
    var n := |es| - 1;
    var s := Run(lim, es[..n]);
    if token in s.table && Run(lim, es).table[token].created == s.table[token].created
       && Run(lim, es).table[token] == s.table[token].(seen := Run(lim, es).table[token].seen) {
      RowsHaveCreators(lim, es[..n], token);
      var i :| 0 <= i < |es[..n]| && MadeBy(s.table[token], token, es[..n][i]);
      assert es[i] == es[..n][i];
    } else {
      assert es[n].Create? && es[n].token == token;
    }
  }

  lemma {:induction false} ErasedCreators(es: seq<Event>, prunes: bool, i: nat)
    requires i < |Erase(es, prunes)|
    ensures exists j :: 0 <= j < |es| && es[j] == Erase(es, prunes)[i]
  {
    var n := |es| - 1;
    if i < |Erase(es[..n], prunes)| {
      ErasedCreators(es[..n], prunes, i);
      var j :| 0 <= j < |es[..n]| && es[..n][j] == Erase(es[..n], prunes)[i];
      assert es[j] == Erase(es, prunes)[i];
    }
  }

  /** A token about to be created is in no table of the run or of the erased run. */
  lemma FreshTokenAbsent(lim: Limits, es: seq<Event>, prunes: bool, ev: Event)
    requires Fresh(es + [ev]) && ev.Create?
    ensures ev.token !in Run(lim, Erase(es, prunes)).table
  {
    var all := es + [ev];
    forall j | 0 <= j < |es| && es[j].Create? ensures es[j].token != ev.token {
      assert all[j] == es[j] && all[|es|] == ev;
    }
    if ev.token in Run(lim, Erase(es, prunes)).table {
      var erased := Erase(es, prunes);
      RowsHaveCreators(lim, erased, ev.token);
      var i :| 0 <= i < |erased| && MadeBy(Run(lim, erased).table[ev.token], ev.token, erased[i]);
      ErasedCreators(es, prunes, i);
      assert false;
    }
  }

  lemma {:induction false} ErasureSimulates(lim: Limits, es: seq<Event>, prunes: bool)
    requires Monotone(es) && Fresh(es)
    requires prunes ==> lim.absolute < DAY * SECOND + SECOND
    ensures Shadows(Run(lim, es).table, Run(lim, Erase(es, prunes)).table, lim, Clock(es))
    ensures Run(lim, es).outcomes == Run(lim, Erase(es, prunes)).outcomes
  {
    if es != [] {
      var n := |es| - 1;
      var ev, erased := es[n], Erase(es[..n], prunes);
      ErasureSimulates(lim, es[..n], prunes);
      RunClock(lim, es[..n]);
      assert es == es[..n] + [ev];
      if ev.PassiveCheck? || (prunes && ev.Prune?) {
        ErasedStep(Run(lim, es[..n]), Run(lim, erased), lim, ev);
      } else {
        if ev.Create? {
          FreshTokenAbsent(lim, es[..n], prunes, ev);
        }
        assert (erased + [ev])[..|erased|] == erased;
        SameStep(Run(lim, es[..n]), Run(lim, erased), lim, ev);
      }
    }
  }

  /** Passive checks are invisible: without them every request of the run is answered the same. */
  lemma PassiveChecksInvisible(lim: Limits, es: seq<Event>)
    requires Monotone(es) && Fresh(es)
    ensures Run(lim, es).outcomes == Run(lim, Erase(es, false)).outcomes
  {
    ErasureSimulates(lim, es, false);
  }

  ghost predicate PrunesInvisible(absolute: nat) {
    forall idle, es :: Monotone(es) && Fresh(es) ==>
      Run(Limits(idle, absolute), es).outcomes == Run(Limits(idle, absolute), Erase(es, true)).outcomes
  }

  lemma Unroll(lim: Limits, es: seq<Event>, ev: Event)
    ensures Run(lim, es + [ev]) == Next(Run(lim, es), lim, ev)
    ensures Clock(es + [ev]) == ClockAfter(Clock(es), ev)
    ensures Monotone(es + [ev]) <==> Monotone(es) && Clock(es) <= ClockAfter(Clock(es), ev)
    ensures Erase(es + [ev], true) == if ev.PassiveCheck? || ev.Prune? then Erase(es, true) else Erase(es, true) + [ev]
  {
    assert (es + [ev])[..|es|] == es;
  }

  const LATE: nat := DAY * SECOND + SECOND

  function Opened(): seq<Event> {
    [] + [Create("token", "user", "csrf", "peer", 0)]
  }

  function PruneWitness(): seq<Event> {
    Opened() + [Prune(LATE)] + [Request("token", "peer", LATE)]
  }

  lemma OpenedRun(lim: Limits)
    ensures Run(lim, Opened()) == State(map["token" := Row("user", "csrf", "peer", 0, 0)], 0, [])
    ensures Monotone(Opened()) && Clock(Opened()) == 0 && Erase(Opened(), true) == Opened()
  {
    Unroll(lim, [], Create("token", "user", "csrf", "peer", 0));
  }

  /** The session is pruned just before a request that the limits would have allowed. */
  lemma PruneWitnessDiffers(absolute: nat)
    requires absolute >= LATE
    ensures Monotone(PruneWitness()) && Fresh(PruneWitness())
    ensures Run(Limits(absolute, absolute), PruneWitness()).outcomes == [Rejected]
    ensures Run(Limits(absolute, absolute), Erase(PruneWitness(), true)).outcomes == [Accepted("user", "csrf")]
  {
    var lim := Limits(absolute, absolute);
    OpenedRun(lim);
    Unroll(lim, Opened(), Prune(LATE));
    Unroll(lim, Opened() + [Prune(LATE)], Request("token", "peer", LATE));
    Unroll(lim, Opened(), Request("token", "peer", LATE));
    assert Run(lim, Opened() + [Prune(LATE)]).table == map[];
  }

  /**
   * The daily prune is invisible to every run exactly when the absolute limit is below a day and a
   * second; with a longer limit it ends sessions that requests would still have been granted.
   */
  lemma PrunesInvisibleIff(absolute: nat)
    ensures PrunesInvisible(absolute) <==> absolute < DAY * SECOND + SECOND
  {
    if absolute < DAY * SECOND + SECOND {
      forall idle, es | Monotone(es) && Fresh(es)
        ensures Run(Limits(idle, absolute), es).outcomes == Run(Limits(idle, absolute), Erase(es, true)).outcomes
      {
        ErasureSimulates(Limits(idle, absolute), es, true);
      }
    } else {
      PruneWitnessDiffers(absolute);
      assert Run(Limits(absolute, absolute), PruneWitness()).outcomes
          != Run(Limits(absolute, absolute), Erase(PruneWitness(), true)).outcomes;
    }
  }

  // ---- rejected stays rejected, and nothing outlives its limit ----

  lemma {:induction false} AbsentStaysAbsent(lim: Limits, es: seq<Event>, more: seq<Event>, token: string)
    requires token !in Run(lim, es).table
    requires forall ev :: ev in more ==> !(ev.Create? && ev.token == token)
    ensures token !in Run(lim, es + more).table
  {
    if more == [] {
      assert es + more == es;
    } else {
      var n := |more| - 1;
      assert (es + more)[..|es + more| - 1] == es + more[..n];
      AbsentStaysAbsent(lim, es, more[..n], token);
      assert more[n] in more;
    }
  }

  /** A token that was rejected once is rejected by every later request. */
  lemma RejectedForever(lim: Limits, es: seq<Event>, more: seq<Event>, token: string, peer: string, now: nat,
                        laterPeer: string, later: nat)
    requires Serve(Run(lim, es).table, lim, token, peer, now).1 == Rejected
    requires forall ev :: ev in more ==> !(ev.Create? && ev.token == token)
    ensures Serve(Run(lim, es + [Request(token, peer, now)] + more).table, lim, token, laterPeer, later).1 == Rejected
  {
    var rejected := es + [Request(token, peer, now)];
    assert rejected[..|es|] == es;
    AbsentStaysAbsent(lim, rejected, more, token);
  }

  /**
   * An accepted request comes from the address that logged in, is answered with that login's user
   * and CSRF token, and lies within the absolute limit of that login and the idle limit of the row.
   */
  lemma AcceptedWithinLimits(lim: Limits, es: seq<Event>, token: string, peer: string, now: nat)
    requires Serve(Run(lim, es).table, lim, token, peer, now).1.Accepted?
    ensures exists i :: 0 <= i < |es| && Login(es[i], token, peer, now, lim,
                                               Serve(Run(lim, es).table, lim, token, peer, now).1)
    ensures now - Run(lim, es).table[token].seen * SECOND <= lim.idle
  {
    RowsHaveCreators(lim, es, token);
    var i :| 0 <= i < |es| && MadeBy(Run(lim, es).table[token], token, es[i]);
    assert es[i].now / SECOND * SECOND <= es[i].now;
    assert Login(es[i], token, peer, now, lim, Serve(Run(lim, es).table, lim, token, peer, now).1);
  }

  /** `ev` is the login of this token and peer, less than the absolute limit ago, and `outcome` names its user. */
  predicate Login(ev: Event, token: string, peer: string, now: nat, lim: Limits, outcome: Outcome) {
    ev.Create? && ev.token == token && ev.ip == peer && now <= ev.now + lim.absolute
    && outcome == Accepted(ev.user, ev.csrf)
  }

  /** The sessions table. */
  class SessionStore {
    var sessions: Table

    constructor ()
      ensures sessions == map[]
    {
      sessions := map[];
    }

    method CreateSession(token: string, user: string, csrf: string, ip: string, now: nat) returns (ok: bool)
      modifies this
      ensures ok <==> token !in old(sessions)
      ensures sessions == Next(State(old(sessions), 0, []), Limits(0, 0), Create(token, user, csrf, ip, now)).table
    {
      ok := token !in sessions;
      if ok {
        sessions := sessions[token := Row(user, csrf, ip, now / SECOND, now / SECOND)];
      }
    }

    method SessionActive(token: string, lim: Limits, now: nat) returns (row: Option<Row>)
      modifies this
      ensures (sessions, row) == Lookup(old(sessions), lim, token, now)
      ensures forall other :: other in old(sessions) && other != token ==>
                other in sessions && sessions[other] == old(sessions)[other]
      ensures sessions != old(sessions) <==> token in old(sessions) && Expired(old(sessions)[token], lim, now)
      ensures row.Some? <==> token in sessions
      ensures row.Some? ==> row.value == old(sessions)[token] && !Expired(row.value, lim, now)
    {
      if token !in sessions {
        return None;
      }
      var out := sessions[token];
      if now - out.created * SECOND > lim.absolute || now - out.seen * SECOND > lim.idle {
        sessions := sessions - {token};
        return None;
      }
      return Some(out);
    }

    /** requireAuth: the lookup, the renewal of `seen`, and the address check. */
    method RequireAuth(token: string, lim: Limits, peer: string, now: nat) returns (outcome: Outcome)
      modifies this
      ensures (sessions, outcome) == Serve(old(sessions), lim, token, peer, now)
    {
      var row := SessionActive(token, lim, now);
      if row == None {
        assert sessions - {token} == sessions;
        return Rejected;
      }
      sessions := sessions[token := sessions[token].(seen := now / SECOND)];
      if row.value.ip != peer {
        assert sessions - {token} == old(sessions) - {token};
        sessions := sessions - {token};
        return Rejected;
      }
      return Accepted(row.value.user, row.value.csrf);
    }
  }
}
