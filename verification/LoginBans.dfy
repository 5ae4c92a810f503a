/** Failed logins in a sliding window, and bans whose length doubles with every strike. */
module LoginBans {
  import opened Powers
  import opened Wrappers

  const SECOND: nat := 1_000_000_000
  const WINDOW: nat := 900
  const FIRST_BAN: nat := 1800
  const DAY: nat := 86400
  const MAX_FAILURES: nat := 5
  const MAX_STRIKES: nat := 6

  /** A stored failure; `at` is in whole seconds and `id` is the position of its attempt in the run. */
  datatype Failure = Failure(id: nat, ip: string, at: nat)

  datatype Ban = Ban(until: nat, strikes: int)

  datatype Tables = Tables(failures: seq<Failure>, bans: map<string, Ban>)

  function Seconds(nanos: nat): nat {
    nanos / SECOND
  }

  predicate IsBanned(t: Tables, ip: string, now: nat) {
    ip in t.bans && t.bans[ip].until > Seconds(now)
  }

  /** SELECT COUNT(*) ... WHERE ip=? AND ts>=? */
  function CountSince(failures: seq<Failure>, ip: string, from: int): nat {
    if failures == [] then 0
    else
      var last := failures[|failures| - 1];
      CountSince(failures[..|failures| - 1], ip, from) + if last.ip == ip && last.at >= from then 1 else 0
  }

  function WindowStart(now: nat): int {
    Seconds(now) - WINDOW
  }

  function NextStrikes(t: Tables, ip: string): (strikes: nat)
    ensures 1 <= strikes <= MAX_STRIKES
  {
    var strikes := if ip in t.bans then t.bans[ip].strikes + 1 else 1;
    if strikes < 1 then 1 else if strikes > MAX_STRIKES then MAX_STRIKES else strikes
  }

  function LoginFailed(t: Tables, ip: string, now: nat, id: nat): (Tables, Option<nat>) {
    var failures := t.failures + [Failure(id, ip, Seconds(now))];
    if CountSince(failures, ip, WindowStart(now)) < MAX_FAILURES then (t.(failures := failures), None)
    else
      var strikes := NextStrikes(t, ip);
      var until := Seconds(now + FIRST_BAN * SECOND * Pow2(strikes - 1));
      (Tables(failures, t.bans[ip := Ban(until, strikes)]), Some(until))
  }

  function WithoutIp(failures: seq<Failure>, ip: string): seq<Failure> {
    if failures == [] then []
    else
      var last := failures[|failures| - 1];
      var rest := WithoutIp(failures[..|failures| - 1], ip);
      if last.ip == ip then rest else rest + [last]
  }

  function NotBefore(failures: seq<Failure>, cutoff: int): seq<Failure> {
    if failures == [] then []
    else
      var last := failures[|failures| - 1];
      var rest := NotBefore(failures[..|failures| - 1], cutoff);
      if last.at < cutoff then rest else rest + [last]
  }

  function PruneTables(t: Tables, now: nat): Tables {
    Tables(NotBefore(t.failures, Seconds(now) - DAY),
           map ip | ip in t.bans && t.bans[ip].until >= Seconds(now) :: t.bans[ip])
  }

  // ---- runs: attempts one at a time, a clock that never goes back ----

  datatype Event =
    | Attempt(ip: string, checkedAt: nat, decidedAt: nat, authenticated: bool)
    | Prune(now: nat)

  /** What is remembered about an address beside the tables. */
  datatype Past = Past(bannedAt: nat, until: nat, banId: nat, bansSincePrune: nat)

  datatype State = State(
    tables: Tables, clock: nat, events: nat, past: map<string, Past>, lastSuccess: map<string, nat>)

  function Init(): State {
    State(Tables([], map[]), 0, 0, map[], map[])
  }

  predicate Enabled(s: State, ev: Event) {
    match ev
    case Attempt(_, checkedAt, decidedAt, _) => s.clock <= checkedAt <= decidedAt
    case Prune(now) => s.clock <= now
  }

  /** The decisions of the login handler, with its bookkeeping. */
  function Login(s: State, ip: string, checkedAt: nat, decidedAt: nat, authenticated: bool): State {
    var seen := s.(clock := decidedAt, events := s.events + 1);
    if IsBanned(s.tables, ip, checkedAt) then seen
    else if authenticated then
      seen.(tables := s.tables.(failures := WithoutIp(s.tables.failures, ip)),
            lastSuccess := s.lastSuccess[ip := s.events])
    else
      var (tables, until) := LoginFailed(s.tables, ip, decidedAt, s.events);
      match until
      case None => seen.(tables := tables)
      case Some(end) =>
        var earlier := if ip in s.tables.bans && ip in s.past then s.past[ip].bansSincePrune else 0;
        seen.(tables := tables,
              past := s.past[ip := Past(Seconds(decidedAt), end, s.events, earlier + 1)])
  }

  function Next(s: State, ev: Event): State {
    if !Enabled(s, ev) then s.(events := s.events + 1)
    else
      match ev
      case Attempt(ip, checkedAt, decidedAt, authenticated) => Login(s, ip, checkedAt, decidedAt, authenticated)
      case Prune(now) => s.(tables := PruneTables(s.tables, now), clock := now, events := s.events + 1)
  }

  function Run(es: seq<Event>): State {
    if es == [] then Init() else Next(Run(es[..|es| - 1]), es[|es| - 1])
  }

  // ---- counting ----

  lemma CountAppend(failures: seq<Failure>, f: Failure, ip: string, from: int)
    ensures CountSince(failures + [f], ip, from)
         == CountSince(failures, ip, from) + if f.ip == ip && f.at >= from then 1 else 0
  {
    assert (failures + [f])[..|failures|] == failures;
  }

  lemma {:induction false} CountLater(failures: seq<Failure>, ip: string, from: int, later: int)
    requires from <= later
    ensures CountSince(failures, ip, later) <= CountSince(failures, ip, from)
  {
    if failures != [] {
      CountLater(failures[..|failures| - 1], ip, from, later);
    }
  }

  lemma {:induction false} CountNone(failures: seq<Failure>, ip: string, from: int)
    requires forall f :: f in failures && f.ip == ip ==> f.at < from
    ensures CountSince(failures, ip, from) == 0
  {
    if failures != [] {
      CountNone(failures[..|failures| - 1], ip, from);
    }
  }

  lemma {:induction false} CountWithout(failures: seq<Failure>, gone: string, ip: string, from: int)
    ensures CountSince(WithoutIp(failures, gone), ip, from) == if ip == gone then 0 else CountSince(failures, ip, from)
  {
    if failures != [] {
      var n := |failures| - 1;
      CountWithout(failures[..n], gone, ip, from);
      CountAppend(WithoutIp(failures[..n], gone), failures[n], ip, from);
    }
  }

  lemma {:induction false} KeptByWithout(failures: seq<Failure>, gone: string, f: Failure)
    requires f in WithoutIp(failures, gone)
    ensures f in failures && f.ip != gone
  {
    var n := |failures| - 1;
    if f in WithoutIp(failures[..n], gone) {
      KeptByWithout(failures[..n], gone, f);
    }
  }

  lemma {:induction false} CountNotBefore(failures: seq<Failure>, cutoff: int, ip: string, from: int)
    ensures CountSince(NotBefore(failures, cutoff), ip, from) <= CountSince(failures, ip, from)
  {
    if failures != [] {
      var n := |failures| - 1;
      CountNotBefore(failures[..n], cutoff, ip, from);
      CountAppend(NotBefore(failures[..n], cutoff), failures[n], ip, from);
    }
  }

  /** Pruning day-old failures cannot change what the login window sees. */
  lemma {:induction false} PruneOutsideWindow(failures: seq<Failure>, cutoff: int, ip: string, from: int)
    requires cutoff <= from
    ensures CountSince(NotBefore(failures, cutoff), ip, from) == CountSince(failures, ip, from)
  {
    if failures != [] {
      var n := |failures| - 1;
      PruneOutsideWindow(failures[..n], cutoff, ip, from);
      CountAppend(NotBefore(failures[..n], cutoff), failures[n], ip, from);
    }
  }

  lemma {:induction false} KeptByPrune(failures: seq<Failure>, cutoff: int, f: Failure)
    requires f in NotBefore(failures, cutoff)
    ensures f in failures
  {
    var n := |failures| - 1;
    if f in NotBefore(failures[..n], cutoff) {
      KeptByPrune(failures[..n], cutoff, f);
    }
  }

  /** Ban lengths are whole seconds, so flooring the end equals flooring the start. */
  lemma BanEnd(now: nat, strikes: nat)
    requires strikes >= 1
    ensures Seconds(now + FIRST_BAN * SECOND * Pow2(strikes - 1)) == Seconds(now) + FIRST_BAN * Pow2(strikes - 1)
    ensures FIRST_BAN * Pow2(strikes - 1) >= FIRST_BAN
  {
    var whole := FIRST_BAN * Pow2(strikes - 1);
    assert FIRST_BAN * SECOND * Pow2(strikes - 1) == whole * SECOND;
    WholeSeconds(now, whole);
  }

  lemma WholeSeconds(now: nat, whole: nat)
    ensures (now + whole * SECOND) / SECOND == now / SECOND + whole
  {
  }

  // ---- invariant ----

  /** The time from which an address is free again: the end of its last ban, or now. */
  function FreeFrom(s: State, ip: string): nat {
    if ip in s.past && s.past[ip].until > Seconds(s.clock) then s.past[ip].until else Seconds(s.clock)
  }

  /** A failure lies either well before the last ban's end, and came before that ban, or after both. */
  predicate OutsideBan(p: Past, f: Failure) {
    if f.id <= p.banId then f.at <= p.bannedAt else f.at >= p.until
  }

  predicate Accounted(s: State, f: Failure) {
    && f.at <= Seconds(s.clock) && f.id < s.events
    && (f.ip in s.past ==> OutsideBan(s.past[f.ip], f))
    && (f.ip in s.lastSuccess ==> f.id > s.lastSuccess[f.ip])
  }

  predicate RowAgrees(s: State, ip: string) {
    && (ip in s.tables.bans ==>
          ip in s.past && s.tables.bans[ip].until == s.past[ip].until
          && s.tables.bans[ip].strikes == Capped(s.past[ip].bansSincePrune)
          && 1 <= s.tables.bans[ip].strikes <= MAX_STRIKES
          && s.past[ip].until == s.past[ip].bannedAt + FIRST_BAN * Pow2(s.tables.bans[ip].strikes - 1))
    && (ip in s.past && ip !in s.tables.bans ==> s.past[ip].until <= Seconds(s.clock))
    && (ip in s.past ==> s.past[ip].until >= s.past[ip].bannedAt + FIRST_BAN
                         && s.past[ip].bannedAt <= Seconds(s.clock) && s.past[ip].banId < s.events
                         && s.past[ip].bansSincePrune >= 1)
  }

  function Capped(bans: nat): nat {
    if bans > MAX_STRIKES then MAX_STRIKES else bans
  }

  predicate Counts(s: State, ip: string) {
    && CountSince(s.tables.failures, ip, FreeFrom(s, ip) - WINDOW) < MAX_FAILURES
    && CountSince(s.tables.failures, ip, WindowStart(s.clock)) <= MAX_FAILURES
  }

  ghost predicate Inv(s: State) {
    && (forall f :: f in s.tables.failures ==> Accounted(s, f))
    && (forall ip :: ip in s.lastSuccess ==> s.lastSuccess[ip] < s.events)
    && (forall ip :: RowAgrees(s, ip))
    && (forall ip :: Counts(s, ip))
  }

  /** Waiting only shortens the window. */
  lemma CountsLater(s: State, s': State, ip: string)
    requires Counts(s, ip) && s.clock <= s'.clock
    requires s'.tables.failures == s.tables.failures
    requires ip in s.past <==> ip in s'.past
    requires ip in s.past ==> s'.past[ip] == s.past[ip]
    ensures Counts(s', ip)
  {
    CountLater(s.tables.failures, ip, FreeFrom(s, ip) - WINDOW, FreeFrom(s', ip) - WINDOW);
    CountLater(s.tables.failures, ip, WindowStart(s.clock), WindowStart(s'.clock));
  }

  predicate LetThrough(s: State, ip: string, checkedAt: nat, decidedAt: nat) {
    s.clock <= checkedAt <= decidedAt && !IsBanned(s.tables, ip, checkedAt)
  }

  /** At an attempt that is let through, fewer than five failures are in its window. */
  lemma FewBefore(s: State, ip: string, checkedAt: nat, decidedAt: nat)
    requires Inv(s) && LetThrough(s, ip, checkedAt, decidedAt)
    ensures CountSince(s.tables.failures, ip, WindowStart(decidedAt)) < MAX_FAILURES
    ensures ip in s.past ==> s.past[ip].until <= Seconds(checkedAt)
  {
    assert RowAgrees(s, ip) && Counts(s, ip);
    CountLater(s.tables.failures, ip, FreeFrom(s, ip) - WINDOW, WindowStart(decidedAt));
  }

  lemma FailureKeepsOtherRows(s: State, ip: string, checkedAt: nat, decidedAt: nat, a: string)
    requires Inv(s) && LetThrough(s, ip, checkedAt, decidedAt) && a != ip
    ensures RowAgrees(Login(s, ip, checkedAt, decidedAt, false), a)
  {
    assert RowAgrees(s, a);
  }

  lemma FailureKeepsOwnRow(s: State, ip: string, checkedAt: nat, decidedAt: nat)
    requires Inv(s) && LetThrough(s, ip, checkedAt, decidedAt)
    ensures RowAgrees(Login(s, ip, checkedAt, decidedAt, false), ip)
  {
    BanEnd(decidedAt, NextStrikes(s.tables, ip));
    assert RowAgrees(s, ip);
  }

  lemma FailureKeepsRows(s: State, ip: string, checkedAt: nat, decidedAt: nat, a: string)
    requires Inv(s) && LetThrough(s, ip, checkedAt, decidedAt)
    ensures RowAgrees(Login(s, ip, checkedAt, decidedAt, false), a)
  {
    if a == ip {
      FailureKeepsOwnRow(s, ip, checkedAt, decidedAt);
    } else {
      FailureKeepsOtherRows(s, ip, checkedAt, decidedAt, a);
    }
  }

  lemma FailureKeepsAccounted(s: State, ip: string, checkedAt: nat, decidedAt: nat, f: Failure)
    requires Inv(s) && LetThrough(s, ip, checkedAt, decidedAt)
    requires f in Login(s, ip, checkedAt, decidedAt, false).tables.failures
    ensures Accounted(Login(s, ip, checkedAt, decidedAt, false), f)
  {
    var added := Failure(s.events, ip, Seconds(decidedAt));
    assert Login(s, ip, checkedAt, decidedAt, false).tables.failures == s.tables.failures + [added];
    FewBefore(s, ip, checkedAt, decidedAt);
    if f != added {
      assert Accounted(s, f);
    } else {
      assert forall a :: a in s.lastSuccess ==> s.lastSuccess[a] < s.events;
      assert RowAgrees(s, ip);
    }
  }

  lemma FailureCountsNow(s: State, ip: string, checkedAt: nat, decidedAt: nat, a: string)
    requires Inv(s) && LetThrough(s, ip, checkedAt, decidedAt)
    ensures CountSince(Login(s, ip, checkedAt, decidedAt, false).tables.failures, a, WindowStart(decidedAt))
         <= MAX_FAILURES
  {
    assert Counts(s, a);
    FewBefore(s, ip, checkedAt, decidedAt);
    CountLater(s.tables.failures, a, WindowStart(s.clock), WindowStart(decidedAt));
    CountAppend(s.tables.failures, Failure(s.events, ip, Seconds(decidedAt)), a, WindowStart(decidedAt));
  }

  /** A failure that earns no ban leaves at most four failures in its window. */
  lemma FailureCountsFree(s: State, ip: string, checkedAt: nat, decidedAt: nat, a: string)
    requires Inv(s) && LetThrough(s, ip, checkedAt, decidedAt)
    requires a != ip || LoginFailed(s.tables, ip, decidedAt, s.events).1 == None
    ensures var s' := Login(s, ip, checkedAt, decidedAt, false);
            CountSince(s'.tables.failures, a, FreeFrom(s', a) - WINDOW) < MAX_FAILURES
  {
    var s' := Login(s, ip, checkedAt, decidedAt, false);
    CountAppend(s.tables.failures, Failure(s.events, ip, Seconds(decidedAt)), a, FreeFrom(s', a) - WINDOW);
    if a == ip {
      FewBefore(s, ip, checkedAt, decidedAt);
      assert FreeFrom(s', a) == Seconds(decidedAt);
    } else {
      assert Counts(s, a);
      CountsLater(s, s.(clock := decidedAt), a);
    }
  }

  /** Right after a ban is issued, no failure can still be in a window once the ban is over. */
  lemma BanClearsWindow(s: State, ip: string, checkedAt: nat, decidedAt: nat)
    requires Inv(s) && LetThrough(s, ip, checkedAt, decidedAt)
    requires LoginFailed(s.tables, ip, decidedAt, s.events).1.Some?
    ensures var s' := Login(s, ip, checkedAt, decidedAt, false);
            CountSince(s'.tables.failures, ip, FreeFrom(s', ip) - WINDOW) < MAX_FAILURES
  {
    var s' := Login(s, ip, checkedAt, decidedAt, false);
    BanEnd(decidedAt, NextStrikes(s.tables, ip));
    forall f | f in s'.tables.failures && f.ip == ip ensures f.at < FreeFrom(s', ip) - WINDOW {
      FailureKeepsAccounted(s, ip, checkedAt, decidedAt, f);
    }
    CountNone(s'.tables.failures, ip, FreeFrom(s', ip) - WINDOW);
  }

  lemma FailureKeepsCounts(s: State, ip: string, checkedAt: nat, decidedAt: nat, a: string)
    requires Inv(s) && LetThrough(s, ip, checkedAt, decidedAt)
    ensures Counts(Login(s, ip, checkedAt, decidedAt, false), a)
  {
    FailureCountsNow(s, ip, checkedAt, decidedAt, a);
    if a != ip || LoginFailed(s.tables, ip, decidedAt, s.events).1 == None {
      FailureCountsFree(s, ip, checkedAt, decidedAt, a);
    } else {
      BanClearsWindow(s, ip, checkedAt, decidedAt);
    }
  }

  lemma FailureKeepsInv(s: State, ip: string, checkedAt: nat, decidedAt: nat)
    requires Inv(s) && LetThrough(s, ip, checkedAt, decidedAt)
    ensures Inv(Login(s, ip, checkedAt, decidedAt, false))
  {
    var s' := Login(s, ip, checkedAt, decidedAt, false);
    forall f | f in s'.tables.failures ensures Accounted(s', f) {
      FailureKeepsAccounted(s, ip, checkedAt, decidedAt, f);
    }
    forall a ensures RowAgrees(s', a) && Counts(s', a) {
      FailureKeepsRows(s, ip, checkedAt, decidedAt, a);
      FailureKeepsCounts(s, ip, checkedAt, decidedAt, a);
    }
  }

  lemma SuccessKeepsInv(s: State, ip: string, checkedAt: nat, decidedAt: nat)
    requires Inv(s) && LetThrough(s, ip, checkedAt, decidedAt)
    ensures Inv(Login(s, ip, checkedAt, decidedAt, true))
  {
    var s' := Login(s, ip, checkedAt, decidedAt, true);
    var later := s.(clock := decidedAt);
    forall f | f in s'.tables.failures ensures Accounted(s', f) {
      KeptByWithout(s.tables.failures, ip, f);
      assert Accounted(s, f);
    }
    forall a ensures RowAgrees(s', a) && Counts(s', a) {
      assert RowAgrees(s, a);
      CountsLater(s, later, a);
      CountWithout(s.tables.failures, ip, a, FreeFrom(s', a) - WINDOW);
      CountWithout(s.tables.failures, ip, a, WindowStart(decidedAt));
    }
  }

  lemma PruneKeepsCounts(s: State, now: nat, a: string)
    requires Inv(s) && s.clock <= now
    ensures Counts(Next(s, Prune(now)), a)
  {
    var s', cutoff := Next(s, Prune(now)), Seconds(now) - DAY;
    assert Counts(s, a);
    CountsLater(s, s.(clock := now), a);
    CountNotBefore(s.tables.failures, cutoff, a, FreeFrom(s', a) - WINDOW);
    CountNotBefore(s.tables.failures, cutoff, a, WindowStart(now));
  }

  lemma PruneKeepsInv(s: State, now: nat)
    requires Inv(s) && s.clock <= now
    ensures Inv(Next(s, Prune(now)))
  {
    var s', cutoff := Next(s, Prune(now)), Seconds(now) - DAY;
    forall f | f in s'.tables.failures ensures Accounted(s', f) {
      KeptByPrune(s.tables.failures, cutoff, f);
      assert Accounted(s, f);
    }
    forall a ensures RowAgrees(s', a) && Counts(s', a) {
      assert RowAgrees(s, a);
      PruneKeepsCounts(s, now, a);
    }
  }

  lemma WaitKeepsInv(s: State, s': State)
    requires Inv(s) && s' == s.(clock := s'.clock, events := s'.events)
    requires s.clock <= s'.clock && s.events <= s'.events
    ensures Inv(s')
  {
    forall f | f in s'.tables.failures ensures Accounted(s', f) {
      assert Accounted(s, f);
    }
    forall a ensures RowAgrees(s', a) && Counts(s', a) {
      assert RowAgrees(s, a);
      CountsLater(s, s', a);
    }
  }

  lemma {:induction false} RunKeepsInv(es: seq<Event>)
    ensures Inv(Run(es))
  {
    if es != [] {
      var s, ev := Run(es[..|es| - 1]), es[|es| - 1];
      RunKeepsInv(es[..|es| - 1]);
      if !Enabled(s, ev) {
        WaitKeepsInv(s, Next(s, ev));
      } else {
        match ev
        case Prune(now) => PruneKeepsInv(s, now);
        case Attempt(ip, checkedAt, decidedAt, authenticated) =>
          if IsBanned(s.tables, ip, checkedAt) {
            WaitKeepsInv(s, Next(s, ev));
          } else if authenticated {
            SuccessKeepsInv(s, ip, checkedAt, decidedAt);
          } else {
            FailureKeepsInv(s, ip, checkedAt, decidedAt);
          }
      }
    }
  }

  // ---- the promises ----

  /** At no time do more than five failures of an address lie in its window. */
  lemma NeverMoreThanFive(es: seq<Event>, ip: string, now: nat)
    requires Run(es).clock <= now
    ensures CountSince(Run(es).tables.failures, ip, WindowStart(now)) <= MAX_FAILURES
  {
    RunKeepsInv(es);
    assert Counts(Run(es), ip);
    CountLater(Run(es).tables.failures, ip, WindowStart(Run(es).clock), WindowStart(now));
  }

  /** A failed attempt is answered with a ban exactly when it is the fifth in its window. */
  lemma BanIffFifth(es: seq<Event>, ip: string, checkedAt: nat, decidedAt: nat)
    requires LetThrough(Run(es), ip, checkedAt, decidedAt)
    ensures var t := Run(es).tables;
            var (t', until) := LoginFailed(t, ip, decidedAt, Run(es).events);
            CountSince(t'.failures, ip, WindowStart(decidedAt)) <= MAX_FAILURES
            && (until.Some? <==> CountSince(t'.failures, ip, WindowStart(decidedAt)) == MAX_FAILURES)
  {
    RunKeepsInv(es);
    var s := Run(es);
    FewBefore(s, ip, checkedAt, decidedAt);
    CountAppend(s.tables.failures, Failure(s.events, ip, Seconds(decidedAt)), ip, WindowStart(decidedAt));
  }

  /** The failures that earn a ban all follow the previous ban's end and the last successful login. */
  lemma BanCountsOnlyFreshFailures(es: seq<Event>, ip: string, checkedAt: nat, decidedAt: nat, f: Failure)
    requires LetThrough(Run(es), ip, checkedAt, decidedAt)
    requires f in Run(es).tables.failures && f.ip == ip && f.at >= WindowStart(decidedAt)
    ensures ip in Run(es).past ==> f.at >= Run(es).past[ip].until && f.id > Run(es).past[ip].banId
    ensures ip in Run(es).lastSuccess ==> f.id > Run(es).lastSuccess[ip]
  {
    RunKeepsInv(es);
    FewBefore(Run(es), ip, checkedAt, decidedAt);
    assert Accounted(Run(es), f) && RowAgrees(Run(es), ip);
  }

  /** The event is a failed attempt of the address that is answered with a ban. */
  predicate IssuesBan(s: State, ev: Event, ip: string) {
    ev.Attempt? && ev.ip == ip && Enabled(s, ev) && !IsBanned(s.tables, ip, ev.checkedAt) && !ev.authenticated
    && LoginFailed(s.tables, ip, ev.decidedAt, s.events).1.Some?
  }

  /** The event is a prune that removes the expired ban of the address. */
  predicate RemovesBan(s: State, ev: Event, ip: string) {
    ev.Prune? && Enabled(s, ev) && ip in s.tables.bans && s.tables.bans[ip].until < Seconds(ev.now)
  }

  /** How many bans the run issued to the address since a prune last removed one. */
  function BansSincePrune(es: seq<Event>, ip: string): nat {
    if es == [] then 0
    else
      var before, s, ev := es[..|es| - 1], Run(es[..|es| - 1]), es[|es| - 1];
      if IssuesBan(s, ev, ip) then BansSincePrune(before, ip) + 1
      else if RemovesBan(s, ev, ip) then 0
      else BansSincePrune(before, ip)
  }

  lemma {:induction false} BansAreRemembered(es: seq<Event>, ip: string)
    ensures ip in Run(es).tables.bans ==>
              ip in Run(es).past && Run(es).past[ip].bansSincePrune == BansSincePrune(es, ip)
    ensures ip !in Run(es).tables.bans ==> BansSincePrune(es, ip) == 0
  {
    if es != [] {
      BansAreRemembered(es[..|es| - 1], ip);
    }
  }

  lemma RunRowAgrees(es: seq<Event>, ip: string)
    ensures RowAgrees(Run(es), ip)
  {
    RunKeepsInv(es);
  }

  /**
   * Every stored ban has 1 to 6 strikes, as many as bans the run issued to the address since a prune last
   * removed an expired one, and lasts 30 minutes doubled for each strike after the first.
   */
  lemma StrikesCountBans(es: seq<Event>, ip: string)
    requires ip in Run(es).tables.bans
    ensures StrikesMatch(Run(es), ip, BansSincePrune(es, ip))
  {
    RunRowAgrees(es, ip);
    BansAreRemembered(es, ip);
    RowMatches(Run(es), ip, BansSincePrune(es, ip));
  }

  predicate StrikesMatch(s: State, ip: string, bans: nat)
    requires ip in s.tables.bans
  {
    var ban := s.tables.bans[ip];
    && 1 <= ban.strikes <= MAX_STRIKES
    && ban.strikes == (if bans <= MAX_STRIKES then bans else MAX_STRIKES)
    && ip in s.past && ban.until == s.past[ip].bannedAt + FIRST_BAN * Pow2(ban.strikes - 1)
  }

  lemma RowMatches(s: State, ip: string, bans: nat)
    requires ip in s.tables.bans && RowAgrees(s, ip) && s.past[ip].bansSincePrune == bans
    ensures StrikesMatch(s, ip, bans)
  {
  }

  /** The event is over before the given second. */
  predicate EndsBefore(ev: Event, second: nat) {
    match ev
    case Attempt(_, checkedAt, decidedAt, _) => Seconds(checkedAt) < second && Seconds(decidedAt) < second
    case Prune(now) => Seconds(now) < second
  }

  lemma StepKeepsBan(s: State, ev: Event, ip: string)
    requires ip in s.tables.bans && EndsBefore(ev, s.tables.bans[ip].until)
    ensures ip in Next(s, ev).tables.bans && Next(s, ev).tables.bans[ip] == s.tables.bans[ip]
    ensures ip in Next(s, ev).lastSuccess <==> ip in s.lastSuccess
    ensures ip in s.lastSuccess ==> Next(s, ev).lastSuccess[ip] == s.lastSuccess[ip]
  {
  }

  lemma StepAddsNoFailure(s: State, ev: Event, ip: string, f: Failure)
    requires ip in s.tables.bans && EndsBefore(ev, s.tables.bans[ip].until)
    requires f in Next(s, ev).tables.failures && f.ip == ip
    ensures f in s.tables.failures
  {
    if Enabled(s, ev) {
      match ev
      case Prune(now) => KeptByPrune(s.tables.failures, Seconds(now) - DAY, f);
      case Attempt(other, checkedAt, decidedAt, authenticated) =>
        if !IsBanned(s.tables, other, checkedAt) && authenticated {
          KeptByWithout(s.tables.failures, other, f);
        }
    }
  }

  /**
   * A ban holds: until it ends, whatever attempts and prunes follow, it stays as issued, and no attempt of
   * the address counts, neither as a failure nor, with the right password, as a success.
   */
  lemma {:induction false} BanHolds(es: seq<Event>, more: seq<Event>, ip: string, f: Failure)
    requires ip in Run(es).tables.bans
    requires forall ev :: ev in more ==> EndsBefore(ev, Run(es).tables.bans[ip].until)
    ensures ip in Run(es + more).tables.bans && Run(es + more).tables.bans[ip] == Run(es).tables.bans[ip]
    ensures ip in Run(es + more).lastSuccess <==> ip in Run(es).lastSuccess
    ensures ip in Run(es).lastSuccess ==> Run(es + more).lastSuccess[ip] == Run(es).lastSuccess[ip]
    ensures f in Run(es + more).tables.failures && f.ip == ip ==> f in Run(es).tables.failures
  {
    if more == [] {
      assert es + more == es;
    } else {
      var n := |more| - 1;
      assert (es + more)[..|es + more| - 1] == es + more[..n];
      BanHolds(es, more[..n], ip, f);
      assert more[n] in more;
      StepKeepsBan(Run(es + more[..n]), more[n], ip);
      if f in Run(es + more).tables.failures && f.ip == ip {
        StepAddsNoFailure(Run(es + more[..n]), more[n], ip, f);
      }
    }
  }

  /**
   * One attempt at a time matters: if a sixth failure slips past the check together with the fifth,
   * both are answered with a ban and the address pays a second strike at once.
   */
  lemma ParallelFailuresStrikeTwice(t: Tables, ip: string, now: nat, id: nat)
    requires ip !in t.bans && CountSince(t.failures, ip, WindowStart(now)) == 4
    ensures var bans := LoginFailed(LoginFailed(t, ip, now, id).0, ip, now, id + 1).0.bans;
            ip in bans && bans[ip].strikes == 2
  {
    var t1 := LoginFailed(t, ip, now, id).0;
    CountAppend(t.failures, Failure(id, ip, Seconds(now)), ip, WindowStart(now));
    CountAppend(t1.failures, Failure(id + 1, ip, Seconds(now)), ip, WindowStart(now));
  }

  lemma {:induction false} FewFailuresNoBan(es: seq<Event>, ip: string)
    requires |es| <= 4 && forall ev :: ev in es ==> ev == Attempt(ip, 0, 0, false)
    ensures Run(es).tables.bans == map[] && Run(es).clock == 0
    ensures CountSince(Run(es).tables.failures, ip, WindowStart(0)) == |es|
  {
    if es != [] {
      var before, s := es[..|es| - 1], Run(es[..|es| - 1]);
      assert forall ev :: ev in before ==> ev in es;
      FewFailuresNoBan(before, ip);
      assert es[|es| - 1] in es;
      CountAppend(s.tables.failures, Failure(s.events, ip, Seconds(0)), ip, WindowStart(0));
    }
  }

  /**
   * Such a run: after four failed attempts two more in parallel earn two strikes, while one after the other
   * they earn one and the second is refused.
   */
  lemma ParallelCostsAStrike(es: seq<Event>, ip: string)
    requires |es| == 4 && forall ev :: ev in es ==> ev == Attempt(ip, 0, 0, false)
    ensures StrikesTogether(Run(es), ip) == Some(2)
    ensures StrikesApart(Run(es), ip) == Some(1)
  {
    FewFailuresNoBan(es, ip);
    TogetherTwo(Run(es), ip);
    ApartOne(Run(es), ip);
  }

  function StrikesOf(bans: map<string, Ban>, ip: string): Option<int> {
    if ip in bans then Some(bans[ip].strikes) else None
  }

  /** Two failures at time 0 that both passed the ban check. */
  function StrikesTogether(s: State, ip: string): Option<int> {
    var fifth := LoginFailed(s.tables, ip, 0, s.events).0;
    StrikesOf(LoginFailed(fifth, ip, 0, s.events + 1).0.bans, ip)
  }

  /** Two failed attempts at time 0, one after the other. */
  function StrikesApart(s: State, ip: string): Option<int> {
    StrikesOf(Next(Next(s, Attempt(ip, 0, 0, false)), Attempt(ip, 0, 0, false)).tables.bans, ip)
  }

  lemma TogetherTwo(s: State, ip: string)
    requires s.tables.bans == map[] && CountSince(s.tables.failures, ip, WindowStart(0)) == 4
    ensures StrikesTogether(s, ip) == Some(2)
  {
    ParallelFailuresStrikeTwice(s.tables, ip, 0, s.events);
  }

  lemma ApartOne(s: State, ip: string)
    requires s.clock == 0 && s.tables.bans == map[]
    requires CountSince(s.tables.failures, ip, WindowStart(0)) == 4
    ensures StrikesApart(s, ip) == Some(1)
  {
    FifthIsBanned(s, ip);
  }

  lemma FifthIsBanned(s: State, ip: string)
    requires s.clock == 0 && s.tables.bans == map[]
    requires CountSince(s.tables.failures, ip, WindowStart(0)) == 4
    ensures var s5 := Next(s, Attempt(ip, 0, 0, false));
            s5.clock == 0 && ip in s5.tables.bans && s5.tables.bans[ip].strikes == 1 && IsBanned(s5.tables, ip, 0)
  {
    CountAppend(s.tables.failures, Failure(s.events, ip, Seconds(0)), ip, WindowStart(0));
    BanEnd(0, 1);
  }

  /** The two tables and the login handler's use of them. */
  class LoginStore {
    var failures: seq<Failure>
    var bans: map<string, Ban>

    function View(): Tables
      reads this
    {
      Tables(failures, bans)
    }

    constructor ()
      ensures View() == Init().tables
    {
      failures, bans := [], map[];
    }

    method RecordFailure(ip: string, now: nat, id: nat) returns (until: Option<nat>)
      modifies this
      ensures (View(), until) == LoginFailed(old(View()), ip, now, id)
    {
      failures := failures + [Failure(id, ip, Seconds(now))];
      var count := 0;
      for i := 0 to |failures|
        invariant count == CountSince(failures[..i], ip, WindowStart(now))
      {
        assert failures[..i + 1][..i] == failures[..i];
        if failures[i].ip == ip && failures[i].at >= WindowStart(now) {
          count := count + 1;
        }
      }
      assert failures[..|failures|] == failures;
      if count < MAX_FAILURES {
        return None;
      }
      var strikes := if ip in bans then bans[ip].strikes else 0;
      strikes := strikes + 1;
      if strikes < 1 {
        strikes := 1;
      }
      if strikes > MAX_STRIKES {
        strikes := MAX_STRIKES;
      }
      var end := Seconds(now + FIRST_BAN * SECOND * Pow2(strikes - 1));
      bans := bans[ip := Ban(end, strikes)];
      until := Some(end);
    }

    method ClearFailures(ip: string)
      modifies this`failures
      ensures failures == WithoutIp(old(failures), ip)
    {
      var kept := [];
      for i := 0 to |failures|
        invariant failures == old(failures) && kept == WithoutIp(failures[..i], ip)
      {
        assert failures[..i + 1][..i] == failures[..i];
        if failures[i].ip != ip {
          kept := kept + [failures[i]];
        }
      }
      assert failures[..|failures|] == failures;
      failures := kept;
    }

    /** The login handler, from the ban check to the recorded outcome. */
    method HandleLogin(ip: string, checkedAt: nat, decidedAt: nat, authenticated: bool, id: nat, ghost s: State)
      returns (refused: bool)
      requires View() == s.tables && id == s.events
      modifies this
      ensures refused <==> IsBanned(old(View()), ip, checkedAt)
      ensures View() == Login(s, ip, checkedAt, decidedAt, authenticated).tables
    {
      refused := ip in bans && bans[ip].until > Seconds(checkedAt);
      if refused {
        return;
      }
      if authenticated {
        ClearFailures(ip);
      } else {
        var until := RecordFailure(ip, decidedAt, id);
      }
    }
  }
}
