/** The fallback without probes: per-socket byte counters turned into flow deltas by the agent. */
module SocketCounters {
  import opened NetworkFlows

  datatype Key = Key(pid: nat, local: string, remote: string)

  /**
   * One listed socket. Keys are reused: `life` is bookkeeping, and tells apart two connections that had
   * the same key at different times.
   */
  datatype Sample = Sample(key: Key, life: nat, rx: nat, tx: nat)

  datatype Delta = Delta(key: Key, rx: nat, tx: nat)

  /** A poll lists the sockets, or fails. */
  datatype Poll = Failed | Listed(samples: seq<Sample>)

  /** The stored counters; `seen` is bookkeeping, the last sample of every key ever listed. */
  datatype State = State(counters: map<Key, Sample>, seen: map<Key, Sample>)

  function Count(s: Sample, dir: Direction): nat {
    if dir.Rx? then s.rx else s.tx
  }

  function Amount(d: Delta, dir: Direction): nat {
    if dir.Rx? then d.rx else d.tx
  }

  /** A counter below its old value has started again. */
  function CounterDelta(current: nat, previous: nat): nat {
    if current < previous then current else current - previous
  }

  /** The table after the samples: of equal keys the last one counts. */
  function Current(samples: seq<Sample>): map<Key, Sample> {
    if samples == [] then map[]
    else Current(samples[..|samples| - 1])[samples[|samples| - 1].key := samples[|samples| - 1]]
  }

  function DeltaOf(s: Sample, previous: map<Key, Sample>): Delta
    requires s.key in previous
  {
    Delta(s.key, CounterDelta(s.rx, previous[s.key].rx), CounterDelta(s.tx, previous[s.key].tx))
  }

  /** Sockets that were listed last time too, and moved bytes since. */
  function Deltas(samples: seq<Sample>, previous: map<Key, Sample>): seq<Delta> {
    if samples == [] then []
    else
      var before, s := Deltas(samples[..|samples| - 1], previous), samples[|samples| - 1];
      if s.key !in previous then before
      else if DeltaOf(s, previous).rx == 0 && DeltaOf(s, previous).tx == 0 then before
      else before + [DeltaOf(s, previous)]
  }

  function Next(s: State, p: Poll): State {
    match p
    case Failed => s
    case Listed(samples) => State(Current(samples), s.seen + Current(samples))
  }

  function Emitted(s: State, p: Poll): seq<Delta> {
    match p
    case Failed => []
    case Listed(samples) => Deltas(samples, s.counters)
  }

  function Run(ps: seq<Poll>): State {
    if ps == [] then State(map[], map[]) else Next(Run(ps[..|ps| - 1]), ps[|ps| - 1])
  }

  /** The bytes a list of deltas charges to a key. */
  function Charged(ds: seq<Delta>, key: Key, dir: Direction): nat {
    if ds == [] then 0
    else
      var d := ds[|ds| - 1];
      Charged(ds[..|ds| - 1], key, dir) + (if d.key == key then Amount(d, dir) else 0)
  }

  function Reported(ps: seq<Poll>, key: Key, dir: Direction): nat {
    if ps == [] then 0
    else
      var before := ps[..|ps| - 1];
      Reported(before, key, dir) + Charged(Emitted(Run(before), ps[|ps| - 1]), key, dir)
  }

  // ---- what really moved ----

  predicate Lists(p: Poll, key: Key) {
    p.Listed? && key in Current(p.samples)
  }

  /** The bytes a socket has moved since its key was last listed, or since its connection began. */
  function MovedIn(s: State, p: Poll, key: Key, dir: Direction): int {
    if !Lists(p, key) then 0
    else
      var now := Current(p.samples)[key];
      if key in s.seen && s.seen[key].life == now.life then Count(now, dir) - Count(s.seen[key], dir)
      else Count(now, dir)
  }

  function Moved(ps: seq<Poll>, key: Key, dir: Direction): int {
    if ps == [] then 0
    else
      var before := ps[..|ps| - 1];
      Moved(before, key, dir) + MovedIn(Run(before), ps[|ps| - 1], key, dir)
  }

  /** What one poll leaves out: everything before a (re)appearance, or what a new connection had to catch up. */
  function MissedIn(s: State, p: Poll, key: Key, dir: Direction): int {
    if !Lists(p, key) then 0
    else
      var now := Current(p.samples)[key];
      if key !in s.counters then MovedIn(s, p, key, dir)
      else if now.life != s.counters[key].life && Count(now, dir) >= Count(s.counters[key], dir)
      then Count(s.counters[key], dir)
      else 0
  }

  function Missed(ps: seq<Poll>, key: Key, dir: Direction): int {
    if ps == [] then 0
    else
      var before := ps[..|ps| - 1];
      Missed(before, key, dir) + MissedIn(Run(before), ps[|ps| - 1], key, dir)
  }

  // ---- well-formed listings ----

  predicate DistinctKeys(p: Poll) {
    p.Listed? ==> forall i, j :: 0 <= i < j < |p.samples| ==> p.samples[i].key != p.samples[j].key
  }

  /** The counters of one connection never fall. */
  predicate Grows(s: State, p: Poll) {
    p.Listed? ==> forall key :: key in s.seen && key in Current(p.samples) ==>
      var now := Current(p.samples)[key];
      now.life == s.seen[key].life ==> s.seen[key].rx <= now.rx && s.seen[key].tx <= now.tx
  }

  predicate Plausible(ps: seq<Poll>) {
    ps == [] ||
    (Plausible(ps[..|ps| - 1]) && DistinctKeys(ps[|ps| - 1]) && Grows(Run(ps[..|ps| - 1]), ps[|ps| - 1]))
  }

  /** Stored counters are the last ones seen. */
  lemma {:induction false} CountersAreSeen(ps: seq<Poll>)
    ensures forall key :: key in Run(ps).counters ==>
              key in Run(ps).seen && Run(ps).seen[key] == Run(ps).counters[key]
  {
    if ps != [] {
      CountersAreSeen(ps[..|ps| - 1]);
    }
  }

  lemma {:induction false} CurrentHas(samples: seq<Sample>, key: Key)
    ensures key in Current(samples) <==> exists i :: 0 <= i < |samples| && samples[i].key == key
    ensures key in Current(samples) ==> Current(samples)[key] in samples && Current(samples)[key].key == key
  {
    if samples != [] {
      var n := |samples| - 1;
      CurrentHas(samples[..n], key);
      assert samples == samples[..n] + [samples[n]];
      assert forall i :: 0 <= i < n ==> samples[..n][i] == samples[i];
      assert samples[n].key == key ==> exists i :: 0 <= i < |samples| && samples[i].key == key;
    }
  }

  /** With distinct keys a listing charges each key exactly the delta of its one sample. */
  lemma {:induction false} ChargedByListing(samples: seq<Sample>, previous: map<Key, Sample>, key: Key, dir: Direction)
    requires DistinctKeys(Listed(samples))
    ensures Charged(Deltas(samples, previous), key, dir) ==
            if key in previous && key in Current(samples)
            then CounterDelta(Count(Current(samples)[key], dir), Count(previous[key], dir))
            else 0
  {
    if samples != [] {
      var n := |samples| - 1;
      var before := samples[..n];
      ChargedByListing(before, previous, key, dir);
      CurrentHas(before, key);
      assert forall i :: 0 <= i < n ==> before[i] == samples[i];
      ChargedSnoc(Deltas(before, previous), samples[n], previous, key, dir);
    }
  }

  lemma ChargedSnoc(ds: seq<Delta>, s: Sample, previous: map<Key, Sample>, key: Key, dir: Direction)
    ensures s.key in previous ==>
              Charged(ds + [DeltaOf(s, previous)], key, dir) ==
              Charged(ds, key, dir) + (if s.key == key then Amount(DeltaOf(s, previous), dir) else 0)
  {
    if s.key in previous {
      assert (ds + [DeltaOf(s, previous)])[..|ds|] == ds;
    }
  }

  /**
   * Over every run of polls, for every key and direction, the bytes that moved are the bytes reported
   * plus the bytes missed.
   */
  lemma {:induction false} MovedIsReportedPlusMissed(ps: seq<Poll>, key: Key, dir: Direction)
    requires Plausible(ps)
    ensures Moved(ps, key, dir) == Reported(ps, key, dir) + Missed(ps, key, dir)
    ensures Missed(ps, key, dir) >= 0
  {
    if ps != [] {
      var before, p := ps[..|ps| - 1], ps[|ps| - 1];
      MovedIsReportedPlusMissed(before, key, dir);
      CountersAreSeen(before);
      if p.Listed? {
        ChargedByListing(p.samples, Run(before).counters, key, dir);
      }
    }
  }

  /** No empty delta is emitted, and every delta is that of a sample listed this time and last time. */
  lemma {:induction false} EmittedCarryBytes(samples: seq<Sample>, previous: map<Key, Sample>, d: Delta)
    requires d in Deltas(samples, previous)
    ensures d.rx + d.tx > 0 && d.key in previous
    ensures exists i :: 0 <= i < |samples| && samples[i].key == d.key && d == DeltaOf(samples[i], previous)
  {
    var n := |samples| - 1;
    if d in Deltas(samples[..n], previous) {
      EmittedCarryBytes(samples[..n], previous, d);
      var i :| 0 <= i < n && samples[..n][i].key == d.key && d == DeltaOf(samples[..n][i], previous);
      assert samples[i] == samples[..n][i];
    }
  }

  /** So no key is ever charged more than moved, whatever sockets come, go, restart or reuse a key. */
  lemma NeverOverCounts(ps: seq<Poll>, key: Key, dir: Direction)
    requires Plausible(ps)
    ensures Reported(ps, key, dir) <= Moved(ps, key, dir)
  {
    MovedIsReportedPlusMissed(ps, key, dir);
  }

  /** The key stays with one connection, listed by every poll that does not fail. */
  predicate Stays(ps: seq<Poll>, key: Key, life: nat) {
    forall i :: 0 <= i < |ps| ==> ps[i].Failed? || (Lists(ps[i], key) && Current(ps[i].samples)[key].life == life)
  }

  /**
   * After any polls, from the one that newly lists a connection on and while it stays listed, failed polls
   * included, its reports add up to last minus first.
   */
  lemma {:induction false} ReportsTelescope(before: seq<Poll>, first: Poll, ps: seq<Poll>, key: Key, dir: Direction,
                                            life: nat)
    requires Plausible(before + [first] + ps) && key !in Run(before).counters
    requires Lists(first, key) && Current(first.samples)[key].life == life && Stays(ps, key, life)
    ensures var all := before + [first] + ps;
            key in Run(all).counters && Run(all).counters[key].life == life
            && Reported(all, key, dir) - Reported(before, key, dir) ==
               Count(Run(all).counters[key], dir) - Count(Current(first.samples)[key], dir)
  {
    var all := before + [first] + ps;
    var n := |all| - 1;
    CountersAreSeen(all[..n]);
    if ps == [] {
      assert all[..n] == before && all[n] == first;
      ChargedByListing(first.samples, Run(before).counters, key, dir);
    } else {
      var shorter := before + [first] + ps[..|ps| - 1];
      assert all[..n] == shorter && all[n] == ps[|ps| - 1];
      ReportsTelescope(before, first, ps[..|ps| - 1], key, dir, life);
      if all[n].Listed? {
        ChargedByListing(all[n].samples, Run(shorter).counters, key, dir);
      }
    }
  }

  /** The agent's loop over one listing. */
  method ReadNetworkFlows(samples: seq<Sample>, previous: map<Key, Sample>)
    returns (flows: seq<Delta>, current: map<Key, Sample>)
    ensures flows == Deltas(samples, previous) && current == Current(samples)
  {
    flows, current := [], map[];
    for i := 0 to |samples|
      invariant flows == Deltas(samples[..i], previous) && current == Current(samples[..i])
    {
      assert samples[..i + 1][..i] == samples[..i];
      var s := samples[i];
      current := current[s.key := s];
      if s.key in previous {
        var rxDelta := CounterDelta(s.rx, previous[s.key].rx);
        var txDelta := CounterDelta(s.tx, previous[s.key].tx);
        if !(rxDelta == 0 && txDelta == 0) {
          flows := flows + [Delta(s.key, rxDelta, txDelta)];
        }
      }
    }
    assert samples[..|samples|] == samples;
  }
}
