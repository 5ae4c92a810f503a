/** The live snapshot stream: one publisher, and a two-place buffer per subscriber that drops when full. */
module SnapshotStream {
  const CAPACITY: nat := 2

  /** A send with a `default` branch: a full buffer drops the new item and nobody waits. */
  function Offer<D>(buffer: seq<D>, item: D): seq<D> {
    if |buffer| < CAPACITY then buffer + [item] else buffer
  }

  /**
   * A subscriber. Publications are numbered from 1; number 0 is the empty snapshot at start-up.
   * `latest` was current at subscription and is written first. `dropped` and `until` are bookkeeping.
   */
  datatype Client = Client(
    latest: nat, greeted: bool, buffer: seq<nat>, received: seq<nat>, open: bool, until: nat, dropped: set<nat>)

  datatype State = State(version: nat, clients: map<nat, Client>)

  datatype Event =
    | Subscribe(id: nat)
    | Publish
    | Write(id: nat)
    | Leave(id: nat)

  function OfferTo(c: Client, version: nat): Client {
    if !c.open then c
    else if |c.buffer| < CAPACITY then c.(buffer := Offer(c.buffer, version))
    else c.(dropped := c.dropped + {version})
  }

  /** The subscriber's own goroutine: first the snapshot of its subscription, then the buffer in order. */
  function WriteOne(c: Client): Client {
    if !c.open then c
    else if !c.greeted then c.(greeted := true, received := c.received + [c.latest])
    else if c.buffer == [] then c
    else c.(buffer := c.buffer[1..], received := c.received + [c.buffer[0]])
  }

  function Next(s: State, ev: Event): State {
    match ev
    case Subscribe(id) =>
      if id in s.clients then s
      else s.(clients := s.clients[id := Client(s.version, false, [], [], true, 0, {})])
    case Publish =>
      State(s.version + 1, map id | id in s.clients :: OfferTo(s.clients[id], s.version + 1))
    case Write(id) =>
      if id !in s.clients then s else s.(clients := s.clients[id := WriteOne(s.clients[id])])
    case Leave(id) =>
      if id !in s.clients || !s.clients[id].open then s
      else s.(clients := s.clients[id := s.clients[id].(open := false, until := s.version)])
  }

  function Run(es: seq<Event>): State {
    if es == [] then State(0, map[]) else Next(Run(es[..|es| - 1]), es[|es| - 1])
  }

  /** Everything the subscriber has been or will be sent, in order. */
  function Stream(c: Client): seq<nat> {
    c.received + (if c.greeted then [] else [c.latest]) + c.buffer
  }

  /** The last publication that concerned the subscriber. */
  function Horizon(c: Client, version: nat): nat {
    if c.open then version else c.until
  }

  predicate Increasing(q: seq<nat>) {
    forall i, j :: 0 <= i < j < |q| ==> q[i] < q[j]
  }

  ghost predicate Sound(c: Client, version: nat) {
    && |c.buffer| <= CAPACITY
    && Stream(c) != [] && Stream(c)[0] == c.latest
    && Increasing(Stream(c))
    && c.latest <= Horizon(c, version) <= version
    && (forall v :: v in Stream(c) ==> c.latest <= v <= Horizon(c, version))
    && (forall v :: v in c.dropped ==> c.latest < v <= Horizon(c, version) && v !in Stream(c))
    && (forall v :: c.latest < v <= Horizon(c, version) ==> v in Stream(c) || v in c.dropped)
  }

  lemma IncreasingSnoc(q: seq<nat>, last: nat)
    requires Increasing(q) && (forall v :: v in q ==> v < last)
    ensures Increasing(q + [last])
  {
    assert forall i :: 0 <= i < |q| ==> q[i] in q;
  }

  lemma OfferKeeps(c: Client, version: nat)
    requires Sound(c, version)
    ensures Sound(OfferTo(c, version + 1), version + 1)
  {
    var c' := OfferTo(c, version + 1);
    if !c.open {
      assert c' == c;
    } else if |c.buffer| < CAPACITY {
      IncreasingSnoc(Stream(c), version + 1);
      assert Stream(c') == Stream(c) + [version + 1];
      assert forall v :: v in Stream(c') <==> v in Stream(c) || v == version + 1;
    } else {
      assert Stream(c') == Stream(c);
    }
  }

  lemma WriteKeeps(c: Client, version: nat)
    requires Sound(c, version)
    ensures Stream(WriteOne(c)) == Stream(c)
    ensures Sound(WriteOne(c), version)
  {
    var c' := WriteOne(c);
    if c.open && !c.greeted {
      assert c'.received + [] + c'.buffer == c.received + [c.latest] + c.buffer;
    } else if c.open && c.buffer != [] {
      assert c.buffer == [c.buffer[0]] + c.buffer[1..];
      assert c'.received + c'.buffer == c.received + c.buffer;
      assert Stream(c') == Stream(c);
    }
    assert Stream(c') == Stream(c);
  }

  /**
   * In every run, every subscriber's stream starts with the snapshot current at its subscription and
   * rises strictly, its buffer never holds more than two, and each later publication up to its
   * departure is either in the stream once or was dropped, never both and never neither.
   */
  lemma {:induction false} StreamsAreSound(es: seq<Event>, id: nat)
    requires id in Run(es).clients
    ensures Sound(Run(es).clients[id], Run(es).version)
  {
    if es != [] {
      var s, ev := Run(es[..|es| - 1]), es[|es| - 1];
      if id in s.clients {
        StreamsAreSound(es[..|es| - 1], id);
        if ev.Publish? {
          OfferKeeps(s.clients[id], s.version);
        } else if ev == Write(id) {
          WriteKeeps(s.clients[id], s.version);
        } else if ev == Leave(id) {
          assert Stream(Run(es).clients[id]) == Stream(s.clients[id]);
        }
      }
    }
  }

  /** What has been written is a prefix of the stream, so it too starts there and never repeats or goes back. */
  lemma WrittenIsPrefix(es: seq<Event>, id: nat)
    requires id in Run(es).clients
    ensures Run(es).clients[id].received <= Stream(Run(es).clients[id])
    ensures Increasing(Run(es).clients[id].received)
    ensures Run(es).clients[id].received != [] ==> Run(es).clients[id].received[0] == Run(es).clients[id].latest
  {
    StreamsAreSound(es, id);
    var c := Run(es).clients[id];
    assert forall i :: 0 <= i < |c.received| ==> c.received[i] == Stream(c)[i];
  }

  lemma DropStep(es: seq<Event>, id: nat)
    requires es != [] && id in Run(es[..|es| - 1]).clients
    ensures var c, c' := Run(es[..|es| - 1]).clients[id], Run(es).clients[id];
            c'.dropped != c.dropped <==> es[|es| - 1].Publish? && c.open && |c.buffer| == CAPACITY
  {
    StreamsAreSound(es[..|es| - 1], id);
    var s := Run(es[..|es| - 1]);
    var c := s.clients[id];
    assert s.version + 1 !in c.dropped;
  }

  /** The subscriber never had a full buffer when something was published. */
  predicate KeptUp(es: seq<Event>, id: nat) {
    es == [] ||
    (var s := Run(es[..|es| - 1]);
     KeptUp(es[..|es| - 1], id)
     && (id in s.clients && es[|es| - 1].Publish? && s.clients[id].open ==> |s.clients[id].buffer| < CAPACITY))
  }

  /** A subscriber misses nothing up to its departure if and only if its buffer was never full at a publication. */
  lemma {:induction false} MissesNothingIff(es: seq<Event>, id: nat)
    requires id in Run(es).clients
    ensures Run(es).clients[id].dropped == {} <==> KeptUp(es, id)
  {
    var s, ev := Run(es[..|es| - 1]), es[|es| - 1];
    if id in s.clients {
      MissesNothingIff(es[..|es| - 1], id);
      DropStep(es, id);
    } else {
      NotYetKeptUp(es[..|es| - 1], id);
    }
  }

  /** Such a client: it subscribes and does not read while three snapshots are published. */
  lemma ThirdIsMissed(id: nat)
    ensures var es := [Subscribe(id), Publish, Publish, Publish];
            id in Run(es).clients && Run(es).clients[id].dropped == {3}
  {
    var es := [Subscribe(id), Publish, Publish, Publish];
    assert es[..3] == [Subscribe(id), Publish, Publish] && es[..2] == [Subscribe(id), Publish];
    assert es[..3][..2] == es[..2] && es[..2][..1] == [Subscribe(id)] && [Subscribe(id)][..0] == [];
    assert Run([Subscribe(id)]).clients[id] == Client(0, false, [], [], true, 0, {});
    assert Run(es[..2]).clients[id] == Client(0, false, [1], [], true, 0, {});
    assert Run(es[..3]).clients[id] == Client(0, false, [1, 2], [], true, 0, {});
  }

  lemma {:induction false} NotYetKeptUp(es: seq<Event>, id: nat)
    requires id !in Run(es).clients
    ensures KeptUp(es, id)
  {
    if es != [] {
      NotYetKeptUp(es[..|es| - 1], id);
    }
  }

  /** And then its stream is every publication from the one at its subscription on, in order. */
  lemma MissedNothingIsEverything(es: seq<Event>, id: nat)
    requires id in Run(es).clients && Run(es).clients[id].dropped == {}
    ensures var c := Run(es).clients[id];
            |Stream(c)| == Horizon(c, Run(es).version) - c.latest + 1
            && forall i :: 0 <= i < |Stream(c)| ==> Stream(c)[i] == c.latest + i
  {
    StreamsAreSound(es, id);
    var c := Run(es).clients[id];
    Consecutive(Stream(c), c.latest, Horizon(c, Run(es).version));
  }

  lemma {:induction false} Consecutive(q: seq<nat>, lo: nat, hi: nat)
    requires q != [] && Increasing(q) && lo <= hi
    requires forall v :: v in q <==> lo <= v <= hi
    ensures |q| == hi - lo + 1 && forall i :: 0 <= i < |q| ==> q[i] == lo + i
    decreases hi - lo
  {
    var n := |q| - 1;
    assert lo in q && hi in q && q[0] in q && q[n] in q;
    var at :| 0 <= at < |q| && q[at] == hi;
    var first :| 0 <= first < |q| && q[first] == lo;
    assert at == n && first == 0;
    if lo == hi {
      assert q == [lo];
    } else {
      assert n > 0;
      forall v ensures v in q[..n] <==> lo <= v <= hi - 1 {
        if v in q && v != hi {
          var i :| 0 <= i < |q| && q[i] == v;
          assert q[..n][i] == v;
        }
      }
      Consecutive(q[..n], lo, hi - 1);
    }
  }

  // ---- the publisher's loop ----

  class Hub<D(==)> {
    var snapshot: D
    var subs: map<nat, seq<D>>

    constructor (initial: D)
      ensures snapshot == initial && subs == map[]
    {
      snapshot := initial;
      subs := map[];
    }

    /** Registering the channel and reading the snapshot are one critical section. */
    method Subscribe(ch: nat) returns (latest: D)
      requires ch !in subs
      modifies this`subs
      ensures subs == old(subs)[ch := []] && latest == snapshot
    {
      subs := subs[ch := []];
      latest := snapshot;
    }

    /** Whatever the order of the channels, each is offered the snapshot once and the loop ends. */
    method Publish(data: D)
      modifies this
      ensures snapshot == data
      ensures subs.Keys == old(subs).Keys
      ensures forall ch :: ch in subs ==> subs[ch] == Offer(old(subs)[ch], data)
    {
      snapshot := data;
      var left := subs.Keys;
      while left != {}
        invariant left <= subs.Keys == old(subs).Keys
        invariant snapshot == data
        invariant forall ch :: ch in subs ==>
                    subs[ch] == (if ch in left then old(subs)[ch] else Offer(old(subs)[ch], data))
        decreases left
      {
        var ch :| ch in left;
        if |subs[ch]| < CAPACITY {
          subs := subs[ch := subs[ch] + [data]];
        }
        left := left - {ch};
      }
    }

    method Unsubscribe(ch: nat)
      modifies this`subs
      ensures subs == old(subs) - {ch}
    {
      subs := subs - {ch};
    }
  }
}
