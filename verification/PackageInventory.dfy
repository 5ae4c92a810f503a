/** The package inventory, and the event log a scan derives from its difference to the last one. */
module PackageInventory {
  import opened Wrappers

  datatype Item = Item(
    id: string, manager: string, name: string, architecture: string, version: string,
    candidate: string, updateState: string, source: string, summary: string, size: nat)

  /** An inventory row; times are whole seconds. */
  datatype Row = Row(item: Item, firstSeen: nat, lastChanged: nat, lastSeen: nat)

  type Inventory = map<string, Row>

  datatype Kind = Installed | Removed | VersionChanged

  datatype Event = Event(
    at: nat, id: string, manager: string, name: string, architecture: string,
    kind: Kind, oldVersion: string, newVersion: string)

  datatype Store = Store(inventory: Inventory, events: seq<Event>)

  function EventOf(at: nat, item: Item, kind: Kind, oldVersion: string, newVersion: string): Event {
    Event(at, item.id, item.manager, item.name, item.architecture, kind, oldVersion, newVersion)
  }

  /** A scan that cannot tell the update state keeps what is already known. */
  function KeepKnownState(existing: Inventory, item: Item): Item {
    if item.id in existing && item.updateState == "unknown" && existing[item.id].item.updateState != "unknown"
    then item.(updateState := existing[item.id].item.updateState, candidate := existing[item.id].item.candidate)
    else item
  }

  function EventsOf(existing: Inventory, now: nat, item: Item): seq<Event> {
    if item.id in existing then
      if existing[item.id].item.version != item.version
      then [EventOf(now, item, VersionChanged, existing[item.id].item.version, item.version)]
      else []
    else if existing != map[] then [EventOf(now, item, Installed, "", item.version)]
    else []
  }

  /** INSERT ... ON CONFLICT(id) DO UPDATE: identity fields and first_seen of a stored row stay. */
  function UpsertItem(inventory: Inventory, existing: Inventory, now: nat, item: Item): Inventory {
    var kept := KeepKnownState(existing, item);
    var firstSeen := if item.id in existing then existing[item.id].firstSeen else now;
    var changed :=
      if item.id in existing && existing[item.id].item.version == item.version
      then existing[item.id].lastChanged else now;
    inventory[item.id :=
      if item.id in inventory then
        var prior := inventory[item.id];
        Row(kept.(manager := prior.item.manager, name := prior.item.name, architecture := prior.item.architecture),
            prior.firstSeen, changed, now)
      else Row(kept, firstSeen, changed, now)]
  }

  function SaveItems(existing: Inventory, now: nat, items: seq<Item>): Store {
    if items == [] then Store(existing, [])
    else
      var n := |items| - 1;
      var before := SaveItems(existing, now, items[..n]);
      Store(UpsertItem(before.inventory, existing, now, items[n]),
            before.events + EventsOf(existing, now, items[n]))
  }

  function Ids(items: seq<Item>): set<string> {
    set i | 0 <= i < |items| :: items[i].id
  }

  /** The rows the scan did not see, in some order. */
  ghost predicate RemovalOrder(existing: Inventory, items: seq<Item>, order: seq<string>) {
    && (forall i, j :: 0 <= i < j < |order| ==> order[i] != order[j])
    && (forall id :: id in order <==> id in existing && id !in Ids(items))
  }

  function RemovalEvent(existing: Inventory, now: nat, id: string): Event
    requires id in existing
  {
    EventOf(now, existing[id].item.(id := id), Removed, existing[id].item.version, "")
  }

  function RemoveRows(s: Store, existing: Inventory, now: nat, order: seq<string>): Store
    requires forall id :: id in order ==> id in existing
  {
    if order == [] then s
    else
      var n := |order| - 1;
      var before := RemoveRows(s, existing, now, order[..n]);
      Store(before.inventory - {order[n]}, before.events + [RemovalEvent(existing, now, order[n])])
  }

  /** A scan as one transaction: new rows and events against the inventory it found. */
  function SaveScan(existing: Inventory, now: nat, items: seq<Item>, order: seq<string>): Store
    requires forall id :: id in order ==> id in existing
  {
    RemoveRows(SaveItems(existing, now, items), existing, now, order)
  }

  // ---- replay ----

  function Versions(inventory: Inventory): map<string, string> {
    map id | id in inventory :: inventory[id].item.version
  }

  function Apply(versions: map<string, string>, events: seq<Event>): map<string, string> {
    if events == [] then versions
    else
      var before, e := Apply(versions, events[..|events| - 1]), events[|events| - 1];
      match e.kind
      case Removed => before - {e.id}
      case _ => before[e.id := e.newVersion]
  }

  lemma {:induction false} ApplyAppend(versions: map<string, string>, a: seq<Event>, b: seq<Event>)
    ensures Apply(versions, a + b) == Apply(Apply(versions, a), b)
  {
    if b == [] {
      assert a + b == a;
    } else {
      var n := |b| - 1;
      assert (a + b)[..|a + b| - 1] == a + b[..n];
      ApplyAppend(versions, a, b[..n]);
    }
  }

  function LastVersion(items: seq<Item>, id: string, default: string): string {
    if items == [] then default
    else if items[|items| - 1].id == id then items[|items| - 1].version
    else LastVersion(items[..|items| - 1], id, default)
  }

  /** The last version other than `old` that the items give to id, or `old`. */
  function LastDifferent(items: seq<Item>, id: string, prior: string): string {
    if items == [] then prior
    else
      var last := items[|items| - 1];
      if last.id == id && last.version != prior then last.version
      else LastDifferent(items[..|items| - 1], id, prior)
  }

  lemma IdsSnoc(items: seq<Item>)
    requires items != []
    ensures Ids(items) == Ids(items[..|items| - 1]) + {items[|items| - 1].id}
  {
    var n := |items| - 1;
    forall id | id in Ids(items[..n]) ensures id in Ids(items) {
      var i :| 0 <= i < n && items[..n][i].id == id;
      assert items[i].id == id;
    }
    forall id | id in Ids(items) ensures id in Ids(items[..n]) + {items[n].id} {
      var i :| 0 <= i < |items| && items[i].id == id;
      if i < n {
        assert items[..n][i].id == id;
      }
    }
  }

  /** What the rows say after the items, id by id. */
  lemma {:induction false} ItemsRows(existing: Inventory, now: nat, items: seq<Item>, id: string)
    ensures var rows := SaveItems(existing, now, items).inventory;
            && (id in rows <==> id in existing || id in Ids(items))
            && (id in rows ==> rows[id].item.version == LastVersion(items, id, StoredVersion(existing, id)))
  {
    if items != [] {
      ItemsRows(existing, now, items[..|items| - 1], id);
      IdsSnoc(items);
    }
  }

  function StoredVersion(existing: Inventory, id: string): string {
    if id in existing then existing[id].item.version else ""
  }

  function LoggedVersion(existing: Inventory, items: seq<Item>, id: string): string {
    if id in existing then LastDifferent(items, id, existing[id].item.version) else LastVersion(items, id, "")
  }

  /** One item's events, applied to a log that says `before` about id. */
  lemma ItemLogStep(existing: Inventory, now: nat, items: seq<Item>, log: map<string, string>, id: string)
    requires existing != map[] && items != []
    requires id in log <==> id in existing || id in Ids(items[..|items| - 1])
    requires id in log ==> log[id] == LoggedVersion(existing, items[..|items| - 1], id)
    ensures var after := Apply(log, EventsOf(existing, now, items[|items| - 1]));
            && (id in after <==> id in existing || id in Ids(items))
            && (id in after ==> after[id] == LoggedVersion(existing, items, id))
  {
    IdsSnoc(items);
    ApplyOne(log, EventsOf(existing, now, items[|items| - 1]));
  }

  /** What the replayed log says after the items, id by id. */
  lemma {:induction false} ItemsLog(existing: Inventory, now: nat, items: seq<Item>, id: string)
    requires existing != map[]
    ensures var log := Apply(Versions(existing), SaveItems(existing, now, items).events);
            && (id in log <==> id in existing || id in Ids(items))
            && (id in log ==> log[id] == LoggedVersion(existing, items, id))
  {
    if items != [] {
      var n := |items| - 1;
      ItemsLog(existing, now, items[..n], id);
      var before := SaveItems(existing, now, items[..n]).events;
      ApplyAppend(Versions(existing), before, EventsOf(existing, now, items[n]));
      ItemLogStep(existing, now, items, Apply(Versions(existing), before), id);
    }
  }

  /** What the rows and the replayed log say after the items, id by id. */
  lemma ItemsReplay(existing: Inventory, now: nat, items: seq<Item>, id: string)
    requires existing != map[]
    ensures var s := SaveItems(existing, now, items);
            var log := Apply(Versions(existing), s.events);
            && (id in s.inventory <==> id in existing || id in Ids(items))
            && (id in log <==> id in s.inventory)
            && (id in s.inventory ==>
                  s.inventory[id].item.version == LastVersion(items, id, StoredVersion(existing, id))
                  && log[id] == LoggedVersion(existing, items, id))
  {
    ItemsRows(existing, now, items, id);
    ItemsLog(existing, now, items, id);
  }

  lemma ApplyOne(versions: map<string, string>, events: seq<Event>)
    requires |events| <= 1
    ensures Apply(versions, events) == if events == [] then versions
            else if events[0].kind == Removed then versions - {events[0].id}
            else versions[events[0].id := events[0].newVersion]
  {
    if events != [] {
      assert Apply(versions, events[..0]) == versions;
    }
  }

  function Elements(order: seq<string>): set<string> {
    set id | id in order
  }

  lemma ElementsSnoc(order: seq<string>)
    requires order != []
    ensures Elements(order) == Elements(order[..|order| - 1]) + {order[|order| - 1]}
  {
    assert order == order[..|order| - 1] + [order[|order| - 1]];
  }

  lemma {:induction false} RemovalRows(s: Store, existing: Inventory, now: nat, order: seq<string>)
    requires forall id :: id in order ==> id in existing
    ensures RemoveRows(s, existing, now, order).inventory == s.inventory - Elements(order)
  {
    if order != [] {
      RemovalRows(s, existing, now, order[..|order| - 1]);
      ElementsSnoc(order);
    }
  }

  lemma {:induction false} RemovalReplay(s: Store, existing: Inventory, now: nat, order: seq<string>,
                                         versions: map<string, string>)
    requires forall id :: id in order ==> id in existing
    ensures Apply(versions, RemoveRows(s, existing, now, order).events) == Apply(versions, s.events) - Elements(order)
  {
    if order != [] {
      var n := |order| - 1;
      RemovalReplay(s, existing, now, order[..n], versions);
      ElementsSnoc(order);
      var before := RemoveRows(s, existing, now, order[..n]).events;
      ApplyAppend(versions, before, [RemovalEvent(existing, now, order[n])]);
      ApplyOne(Apply(versions, before), [RemovalEvent(existing, now, order[n])]);
    }
  }

  /** No stored package is listed with another version first and with its stored version last. */
  predicate NoReversion(existing: Inventory, items: seq<Item>) {
    forall id :: id in existing ==> NotReverted(items, id, existing[id].item.version)
  }

  predicate NotReverted(items: seq<Item>, id: string, stored: string) {
    LastVersion(items, id, stored) == stored ==>
      forall i :: 0 <= i < |items| && items[i].id == id ==> items[i].version == stored
  }

  lemma {:induction false} LastOfSame(items: seq<Item>, id: string, prior: string)
    ensures LastVersion(items, id, prior) != prior ==> LastDifferent(items, id, prior) == LastVersion(items, id, prior)
    ensures LastDifferent(items, id, prior) == prior <==>
              forall i :: 0 <= i < |items| && items[i].id == id ==> items[i].version == prior
  {
    if items != [] {
      LastOfSame(items[..|items| - 1], id, prior);
    }
  }

  /** For one stored package, the log and the inventory agree unless its version was reverted. */
  lemma SameLastIff(items: seq<Item>, id: string, stored: string)
    ensures LastVersion(items, id, stored) == LastDifferent(items, id, stored) <==> NotReverted(items, id, stored)
  {
    LastOfSame(items, id, stored);
  }

  lemma ReplayAt(existing: Inventory, now: nat, items: seq<Item>, order: seq<string>, id: string)
    requires existing != map[] && RemovalOrder(existing, items, order)
    ensures var s := SaveScan(existing, now, items, order);
            var log := Apply(Versions(existing), s.events);
            && (id in s.inventory <==> id in Ids(items))
            && (id in log <==> id in s.inventory)
            && (id in Ids(items) ==>
                  s.inventory[id].item.version == LastVersion(items, id, StoredVersion(existing, id))
                  && log[id] == LoggedVersion(existing, items, id))
  {
    ItemsReplay(existing, now, items, id);
    RemovalRows(SaveItems(existing, now, items), existing, now, order);
    RemovalReplay(SaveItems(existing, now, items), existing, now, order, Versions(existing));
  }

  /**
   * Replaying the events of a scan on the old versions gives exactly the new versions if and only if
   * no stored package is listed both with another version and, last, with its stored one.
   */
  lemma ReplayIff(existing: Inventory, now: nat, items: seq<Item>, order: seq<string>)
    requires existing != map[] && RemovalOrder(existing, items, order)
    ensures var s := SaveScan(existing, now, items, order);
            Apply(Versions(existing), s.events) == Versions(s.inventory) <==> NoReversion(existing, items)
  {
    var s := SaveScan(existing, now, items, order);
    var log, versions := Apply(Versions(existing), s.events), Versions(s.inventory);
    forall id ensures id in log <==> id in versions {
      ReplayAt(existing, now, items, order, id);
    }
    if NoReversion(existing, items) {
      forall id | id in versions ensures log[id] == versions[id] {
        ReplayAt(existing, now, items, order, id);
        if id in existing {
          SameLastIff(items, id, existing[id].item.version);
        }
      }
      assert log == versions;
    } else {
      var id :| id in existing && !NotReverted(items, id, existing[id].item.version);
      ReplayAt(existing, now, items, order, id);
      SameLastIff(items, id, existing[id].item.version);
      assert id in Ids(items);
      assert log[id] != versions[id];
    }
  }

  /** Such a scan: it lists a stored package with another version first and with its stored one last. */
  lemma RevertedScanDiffers(existing: Inventory, now: nat, id: string, other: Item, same: Item)
    requires existing.Keys == {id} && other.id == id && same.id == id
    requires other.version != existing[id].item.version == same.version
    ensures Apply(Versions(existing), SaveScan(existing, now, [other, same], []).events)
         != Versions(SaveScan(existing, now, [other, same], []).inventory)
  {
    var items := [other, same];
    assert items[0].id == id && items[1] == same;
    assert !NotReverted(items, id, existing[id].item.version);
    assert id in Ids(items);
    assert RemovalOrder(existing, items, []);
    ReplayIff(existing, now, items, []);
  }

  predicate DistinctIds(items: seq<Item>) {
    forall i, j :: 0 <= i < j < |items| ==> items[i].id != items[j].id
  }

  lemma {:induction false} LastOfDistinct(items: seq<Item>, i: nat, default: string)
    requires DistinctIds(items) && i < |items|
    ensures LastVersion(items, items[i].id, default) == items[i].version
  {
    var n := |items| - 1;
    if i < n {
      LastOfDistinct(items[..n], i, default);
    }
  }

  /** With distinct ids, as every package manager reports them, the log always replays. */
  lemma DistinctScanReplays(existing: Inventory, now: nat, items: seq<Item>, order: seq<string>)
    requires existing != map[] && DistinctIds(items) && RemovalOrder(existing, items, order)
    ensures var s := SaveScan(existing, now, items, order);
            Apply(Versions(existing), s.events) == Versions(s.inventory)
  {
    forall id | id in existing ensures NotReverted(items, id, existing[id].item.version) {
      forall i | 0 <= i < |items| && items[i].id == id
        ensures LastVersion(items, id, existing[id].item.version) == items[i].version
      {
        LastOfDistinct(items, i, existing[id].item.version);
      }
    }
    ReplayIff(existing, now, items, order);
  }

  /** The first scan of an empty inventory is a baseline: rows, but no events. */
  lemma {:induction false} BaselineHasNoEvents(now: nat, items: seq<Item>)
    ensures SaveScan(map[], now, items, []).events == []
    ensures SaveScan(map[], now, items, []).inventory.Keys == Ids(items)
  {
    if items != [] {
      BaselineHasNoEvents(now, items[..|items| - 1]);
      IdsSnoc(items);
    }
  }

  // ---- exactly one event per changed package ----

  function EventsFor(events: seq<Event>, id: string): seq<Event> {
    if events == [] then []
    else
      var rest := EventsFor(events[..|events| - 1], id);
      if events[|events| - 1].id == id then rest + [events[|events| - 1]] else rest
  }

  lemma {:induction false} EventsForAppend(a: seq<Event>, b: seq<Event>, id: string)
    ensures EventsFor(a + b, id) == EventsFor(a, id) + EventsFor(b, id)
  {
    if b == [] {
      assert a + b == a;
    } else {
      var n := |b| - 1;
      assert (a + b)[..|a + b| - 1] == a + b[..n];
      EventsForAppend(a, b[..n], id);
    }
  }

  lemma EventsForOne(e: Event, id: string)
    ensures EventsFor([e], id) == if e.id == id then [e] else []
  {
    assert EventsFor([e][..0], id) == [];
  }

  function ItemsFor(items: seq<Item>, id: string): seq<Item> {
    if items == [] then []
    else
      var rest := ItemsFor(items[..|items| - 1], id);
      if items[|items| - 1].id == id then rest + [items[|items| - 1]] else rest
  }

  lemma {:induction false} ItemsForDistinct(items: seq<Item>, id: string)
    requires DistinctIds(items)
    ensures id !in Ids(items) ==> ItemsFor(items, id) == []
    ensures forall i :: 0 <= i < |items| && items[i].id == id ==> ItemsFor(items, id) == [items[i]]
  {
    if items != [] {
      ItemsForDistinct(items[..|items| - 1], id);
      IdsSnoc(items);
      if items[|items| - 1].id == id {
        assert id !in Ids(items[..|items| - 1]);
      }
    }
  }

  /** The events of one item all concern that item. */
  lemma OneItemEvents(existing: Inventory, now: nat, item: Item, id: string)
    ensures EventsFor(EventsOf(existing, now, item), id) == if item.id == id then EventsOf(existing, now, item) else []
  {
    var events := EventsOf(existing, now, item);
    if events != [] {
      assert events == [events[0]];
      EventsForOne(events[0], id);
    }
  }

  lemma ItemEventsSnoc(existing: Inventory, now: nat, before: seq<Item>, last: Item, id: string)
    ensures EventsFor(SaveItems(existing, now, before + [last]).events, id)
         == EventsFor(SaveItems(existing, now, before).events, id)
            + if last.id == id then EventsOf(existing, now, last) else []
  {
    assert (before + [last])[..|before|] == before;
    EventsForAppend(SaveItems(existing, now, before).events, EventsOf(existing, now, last), id);
    OneItemEvents(existing, now, last, id);
  }

  lemma OnlyItemFor(before: seq<Item>, last: Item, id: string)
    requires DistinctIds(before + [last])
    ensures ItemsFor(before + [last], id) == if last.id == id then [last] else ItemsFor(before, id)
    ensures last.id == id ==> ItemsFor(before, id) == []
  {
    var items := before + [last];
    assert items[..|before|] == before;
    if last.id == id {
      assert items[|before|] == last;
      ItemsForDistinct(items, id);
      assert ItemsFor(items, id) == ItemsFor(before, id) + [last];
    }
  }

  lemma {:induction false} ItemEvents(existing: Inventory, now: nat, items: seq<Item>, id: string)
    requires DistinctIds(items)
    ensures EventsFor(SaveItems(existing, now, items).events, id)
         == if ItemsFor(items, id) == [] then [] else EventsOf(existing, now, ItemsFor(items, id)[0])
  {
    if items != [] {
      var before, last := items[..|items| - 1], items[|items| - 1];
      assert items == before + [last];
      ItemEvents(existing, now, before, id);
      ItemEventsSnoc(existing, now, before, last, id);
      OnlyItemFor(before, last, id);
    }
  }

  lemma {:induction false} RemovalEvents(s: Store, existing: Inventory, now: nat, order: seq<string>, id: string)
    requires forall x :: x in order ==> x in existing
    requires forall i, j :: 0 <= i < j < |order| ==> order[i] != order[j]
    ensures EventsFor(RemoveRows(s, existing, now, order).events, id)
         == if id in order then EventsFor(s.events, id) + [RemovalEvent(existing, now, id)] else EventsFor(s.events, id)
  {
    if order != [] {
      var n := |order| - 1;
      RemovalEvents(s, existing, now, order[..n], id);
      var e := RemovalEvent(existing, now, order[n]);
      EventsForAppend(RemoveRows(s, existing, now, order[..n]).events, [e], id);
      EventsForOne(e, id);
      if order[n] == id {
        assert id !in order[..n];
      } else {
        assert id in order <==> id in order[..n];
      }
    }
  }

  /** What a scan must report about one package, from its versions before and after. */
  predicate Reports(events: seq<Event>, id: string, prior: Option<string>, after: Option<string>) {
    if prior == after then events == []
    else
      |events| == 1 && events[0].id == id
      && events[0].oldVersion == (if prior.Some? then prior.value else "")
      && events[0].newVersion == (if after.Some? then after.value else "")
      && events[0].kind == if prior.None? then Installed else if after.None? then Removed else VersionChanged
  }

  function VersionIn(inventory: Inventory, id: string): Option<string> {
    if id in inventory then Some(inventory[id].item.version) else None
  }

  /**
   * A scan with distinct ids reports every changed package by exactly one event, of the right kind
   * and with both versions, and no unchanged package at all.
   */
  lemma OneEventPerChange(existing: Inventory, now: nat, items: seq<Item>, order: seq<string>, id: string)
    requires existing != map[] && DistinctIds(items) && RemovalOrder(existing, items, order)
    ensures var s := SaveScan(existing, now, items, order);
            Reports(EventsFor(s.events, id), id, VersionIn(existing, id), VersionIn(s.inventory, id))
  {
    ScanEvents(existing, now, items, order, id);
    ScanVersion(existing, now, items, order, id);
    if id in Ids(items) {
      var i :| 0 <= i < |items| && items[i].id == id;
      SeenReports(existing, now, items[i], id);
    } else {
      UnseenReports(existing, now, id);
    }
  }

  lemma SeenReports(existing: Inventory, now: nat, item: Item, id: string)
    requires existing != map[] && item.id == id
    ensures Reports(EventsOf(existing, now, item), id, VersionIn(existing, id), Some(item.version))
  {
  }

  lemma UnseenReports(existing: Inventory, now: nat, id: string)
    ensures id in existing ==> Reports([RemovalEvent(existing, now, id)], id, VersionIn(existing, id), None)
    ensures id !in existing ==> Reports([], id, VersionIn(existing, id), None)
  {
  }

  /** The version a scan leaves for one id: that of its one item, or none. */
  lemma ScanVersion(existing: Inventory, now: nat, items: seq<Item>, order: seq<string>, id: string)
    requires existing != map[] && DistinctIds(items) && RemovalOrder(existing, items, order)
    ensures var after := VersionIn(SaveScan(existing, now, items, order).inventory, id);
            && (id !in Ids(items) ==> after == None)
            && (forall i :: 0 <= i < |items| && items[i].id == id ==> after == Some(items[i].version))
  {
    ReplayAt(existing, now, items, order, id);
    forall i | 0 <= i < |items| && items[i].id == id
      ensures id in Ids(items) && LastVersion(items, id, StoredVersion(existing, id)) == items[i].version
    {
      LastOfDistinct(items, i, StoredVersion(existing, id));
    }
  }

  /** The events of a scan about one id: those of its one item, or its removal. */
  lemma ScanEvents(existing: Inventory, now: nat, items: seq<Item>, order: seq<string>, id: string)
    requires DistinctIds(items) && RemovalOrder(existing, items, order)
    ensures var events := EventsFor(SaveScan(existing, now, items, order).events, id);
            && (id !in Ids(items) ==> events == if id in existing then [RemovalEvent(existing, now, id)] else [])
            && (forall i :: 0 <= i < |items| && items[i].id == id ==> events == EventsOf(existing, now, items[i]))
  {
    ItemEvents(existing, now, items, id);
    ItemsForDistinct(items, id);
    RemovalEvents(SaveItems(existing, now, items), existing, now, order, id);
    forall i | 0 <= i < |items| && items[i].id == id ensures id in Ids(items) {
    }
  }

  // ---- whole histories ----

  datatype Scan = Scan(now: nat, items: seq<Item>, order: seq<string>, commits: bool)

  function Log(baseline: Inventory, scans: seq<Scan>): Store
  {
    if scans == [] then Store(baseline, [])
    else
      var before, scan := Log(baseline, scans[..|scans| - 1]), scans[|scans| - 1];
      if scan.commits && forall id :: id in scan.order ==> id in before.inventory then
        var s := SaveScan(before.inventory, scan.now, scan.items, scan.order);
        Store(s.inventory, before.events + s.events)
      else before
  }

  /** Committed scans list each id once and remove every row they did not see. */
  ghost predicate Regular(baseline: Inventory, scans: seq<Scan>) {
    scans == [] ||
    (var before, scan := Log(baseline, scans[..|scans| - 1]).inventory, scans[|scans| - 1];
     Regular(baseline, scans[..|scans| - 1])
     && (scan.commits ==> DistinctIds(scan.items) && RemovalOrder(before, scan.items, scan.order)))
  }

  /**
   * The ids that a scan of an emptied inventory installed without an event and that no event has named
   * since.
   */
  function Silent(baseline: Inventory, scans: seq<Scan>): set<string> {
    if scans == [] then {}
    else
      var before, scan := Log(baseline, scans[..|scans| - 1]).inventory, scans[|scans| - 1];
      if !scan.commits then Silent(baseline, scans[..|scans| - 1])
      else if before == map[] then Ids(scan.items)
      else Unchanged(Silent(baseline, scans[..|scans| - 1]), before, Log(baseline, scans).inventory)
  }

  function Unchanged(ids: set<string>, before: Inventory, after: Inventory): set<string> {
    set id | id in ids && VersionIn(before, id) == VersionIn(after, id)
  }

  /** Two version maps that say the same about an id. */
  predicate SameAt(a: map<string, string>, b: map<string, string>, id: string) {
    (id in a <==> id in b) && (id in a ==> a[id] == b[id])
  }

  lemma SameEverywhere(a: map<string, string>, b: map<string, string>)
    requires forall id :: SameAt(a, b, id)
    ensures a == b
  {
    assert forall id :: id in a ==> SameAt(a, b, id);
    assert forall id :: id in b ==> SameAt(a, b, id);
  }

  /** What a log says about an id depends only on the start at that id and on its own events. */
  lemma {:induction false} ApplyLocal(a: map<string, string>, b: map<string, string>, events: seq<Event>, id: string)
    ensures EventsFor(events, id) != [] || SameAt(a, b, id) ==> SameAt(Apply(a, events), Apply(b, events), id)
    ensures EventsFor(events, id) == [] ==> SameAt(Apply(a, events), a, id)
  {
    if events != [] {
      ApplyLocal(a, b, events[..|events| - 1], id);
    }
  }

  /** The events of a scan of a non-empty inventory, replayed on a log that lacks some of its ids. */
  lemma ScanOnPartialLog(existing: Inventory, scan: Scan, silent: set<string>, log: map<string, string>)
    requires existing != map[] && DistinctIds(scan.items) && RemovalOrder(existing, scan.items, scan.order)
    requires silent <= existing.Keys && log == Versions(existing) - silent
    ensures var s := SaveScan(existing, scan.now, scan.items, scan.order);
            var rest := Unchanged(silent, existing, s.inventory);
            rest <= s.inventory.Keys && Apply(log, s.events) == Versions(s.inventory) - rest
  {
    var s := SaveScan(existing, scan.now, scan.items, scan.order);
    var rest := Unchanged(silent, existing, s.inventory);
    DistinctScanReplays(existing, scan.now, scan.items, scan.order);
    forall id ensures SameAt(Apply(log, s.events), Versions(s.inventory) - rest, id) {
      OneEventPerChange(existing, scan.now, scan.items, scan.order, id);
      ApplyLocal(log, Versions(existing), s.events, id);
    }
    SameEverywhere(Apply(log, s.events), Versions(s.inventory) - rest);
  }

  lemma EmptyOrElement(order: seq<string>)
    ensures order == [] || exists id :: id in order
  {
    if order != [] {
      assert order[0] in order;
    }
  }

  /** A committed scan of an empty inventory changes the rows and not the log. */
  lemma RefillIsSilent(scan: Scan)
    requires DistinctIds(scan.items) && RemovalOrder(map[], scan.items, scan.order)
    ensures SaveScan(map[], scan.now, scan.items, scan.order).events == []
    ensures SaveScan(map[], scan.now, scan.items, scan.order).inventory.Keys == Ids(scan.items)
  {
    EmptyOrElement(scan.order);
    BaselineHasNoEvents(scan.now, scan.items);
  }

  /**
   * From any baseline and through any scans, committed or rolled back, emptying or refilling, the whole
   * event log replays to the current inventory less the silent ids.
   */
  lemma {:induction false} WholeLogLacksSilent(baseline: Inventory, scans: seq<Scan>)
    requires Regular(baseline, scans)
    ensures Silent(baseline, scans) <= Log(baseline, scans).inventory.Keys
    ensures Apply(Versions(baseline), Log(baseline, scans).events)
         == Versions(Log(baseline, scans).inventory) - Silent(baseline, scans)
  {
    if scans != [] {
      var n := |scans| - 1;
      WholeLogLacksSilent(baseline, scans[..n]);
      var before, silent := Log(baseline, scans[..n]), Silent(baseline, scans[..n]);
      if scans[n].commits {
        LastScan(baseline, scans, Apply(Versions(baseline), before.events));
      }
    }
  }

  lemma LastScan(baseline: Inventory, scans: seq<Scan>, log: map<string, string>)
    requires scans != [] && Regular(baseline, scans) && scans[|scans| - 1].commits
    requires var n := |scans| - 1;
             Silent(baseline, scans[..n]) <= Log(baseline, scans[..n]).inventory.Keys
             && log == Versions(Log(baseline, scans[..n]).inventory) - Silent(baseline, scans[..n])
             && log == Apply(Versions(baseline), Log(baseline, scans[..n]).events)
    ensures Silent(baseline, scans) <= Log(baseline, scans).inventory.Keys
    ensures Apply(Versions(baseline), Log(baseline, scans).events)
         == Versions(Log(baseline, scans).inventory) - Silent(baseline, scans)
  {
    var n := |scans| - 1;
    var scan, before := scans[n], Log(baseline, scans[..n]);
    var s := SaveScan(before.inventory, scan.now, scan.items, scan.order);
    assert Log(baseline, scans) == Store(s.inventory, before.events + s.events);
    ApplyAppend(Versions(baseline), before.events, s.events);
    if before.inventory == map[] {
      RefillIsSilent(scan);
      assert Versions(s.inventory) - Ids(scan.items) == map[];
    } else {
      ScanOnPartialLog(before.inventory, scan, Silent(baseline, scans[..n]), log);
    }
  }

  /** So it replays to the inventory itself if and only if no id is silent. */
  lemma WholeLogReplaysIff(baseline: Inventory, scans: seq<Scan>)
    requires Regular(baseline, scans)
    ensures Apply(Versions(baseline), Log(baseline, scans).events) == Versions(Log(baseline, scans).inventory) <==>
            Silent(baseline, scans) == {}
  {
    WholeLogLacksSilent(baseline, scans);
    var versions, silent := Versions(Log(baseline, scans).inventory), Silent(baseline, scans);
    if silent != {} {
      var id :| id in silent;
      assert id in versions && id !in versions - silent;
    } else {
      assert versions - silent == versions;
    }
  }

  /** No committed scan fills an empty inventory. */
  predicate NeverRefilled(baseline: Inventory, scans: seq<Scan>) {
    scans == [] ||
    (var before, scan := Log(baseline, scans[..|scans| - 1]).inventory, scans[|scans| - 1];
     NeverRefilled(baseline, scans[..|scans| - 1]) && (scan.commits && before == map[] ==> scan.items == []))
  }

  predicate AlwaysReplays(baseline: Inventory, scans: seq<Scan>) {
    Apply(Versions(baseline), Log(baseline, scans).events) == Versions(Log(baseline, scans).inventory)
    && (scans != [] ==> AlwaysReplays(baseline, scans[..|scans| - 1]))
  }

  /** The log replays to the inventory after every single scan if and only if none fills an empty inventory. */
  lemma {:induction false} WholeLogReplays(baseline: Inventory, scans: seq<Scan>)
    requires Regular(baseline, scans)
    ensures AlwaysReplays(baseline, scans) <==> NeverRefilled(baseline, scans)
  {
    WholeLogReplaysIff(baseline, scans);
    if scans != [] {
      var n := |scans| - 1;
      WholeLogReplays(baseline, scans[..n]);
      WholeLogReplaysIff(baseline, scans[..n]);
      if scans[n].commits && Log(baseline, scans[..n]).inventory == map[] && scans[n].items != [] {
        assert scans[n].items[0].id in Ids(scans[n].items);
      }
    }
  }

  /** Such a history: one scan empties the inventory and the next fills it again. */
  lemma RefillBreaksReplay(baseline: Inventory, id: string, item: Item, empty: Scan, refill: Scan)
    requires baseline.Keys == {id}
    requires empty.commits && empty.items == [] && empty.order == [id]
    requires refill.commits && refill.items == [item] && refill.order == []
    ensures Regular(baseline, [empty, refill]) && !AlwaysReplays(baseline, [empty, refill])
  {
    var scans := [empty, refill];
    assert scans[..1] == [empty] && [empty][..0] == [];
    assert Ids([]) == {};
    EmptyingScan(baseline, empty, id);
    assert Log(baseline, [empty]).inventory == map[];
    assert RemovalOrder(map[], [item], []);
    assert Regular(baseline, []) && Regular(baseline, [empty]) && Regular(baseline, scans);
    WholeLogReplays(baseline, scans);
  }

  lemma EmptyingScan(baseline: Inventory, scan: Scan, id: string)
    requires baseline.Keys == {id} && scan.items == [] && scan.order == [id]
    ensures SaveScan(baseline, scan.now, scan.items, scan.order).inventory == map[]
    ensures RemovalOrder(baseline, scan.items, scan.order)
  {
    RemovalRows(SaveItems(baseline, scan.now, []), baseline, scan.now, scan.order);
    assert Elements(scan.order) == {id};
    assert baseline - {id} == map[];
  }

  // ---- the transaction as the store runs it ----

  class PackageStore {
    var inventory: Inventory
    var events: seq<Event>

    constructor ()
      ensures inventory == map[] && events == []
    {
      inventory, events := map[], [];
    }

    /** `commits` is false when any statement of the transaction fails; `order` is the order of removals. */
    method SavePackageScan(items: seq<Item>, now: nat, commits: bool) returns (ghost order: seq<string>)
      modifies this
      ensures RemovalOrder(old(inventory), items, order)
      ensures forall id :: id in order ==> id in old(inventory)
      ensures var s := SaveScan(old(inventory), now, items, order);
              inventory == (if commits then s.inventory else old(inventory))
              && events == if commits then old(events) + s.events else old(events)
    {
      var existing := inventory;
      var rows, added := existing, [];
      var seen: set<string> := {};
      for i := 0 to |items|
        invariant inventory == old(inventory) && events == old(events)
        invariant seen == Ids(items[..i])
        invariant Store(rows, added) == SaveItems(existing, now, items[..i])
      {
        assert items[..i + 1][..i] == items[..i];
        IdsSnoc(items[..i + 1]);
        var item := items[i];
        seen := seen + {item.id};
        if item.id in existing {
          if existing[item.id].item.version != item.version {
            added := added + [EventOf(now, item, VersionChanged, existing[item.id].item.version, item.version)];
          }
        } else if |existing| > 0 {
          added := added + [EventOf(now, item, Installed, "", item.version)];
        }
        rows := UpsertItem(rows, existing, now, item);
      }
      assert items[..|items|] == items;
      order := [];
      ghost var saved := Store(rows, added);
      var left := existing.Keys - seen;
      while left != {}
        invariant inventory == old(inventory) && events == old(events)
        invariant left <= existing.Keys - seen
        invariant forall id :: id in order <==> id in existing && id !in seen && id !in left
        invariant forall i, j :: 0 <= i < j < |order| ==> order[i] != order[j]
        invariant Store(rows, added) == RemoveRows(saved, existing, now, order)
      {
        var id :| id in left;
        left := left - {id};
        assert (order + [id])[..|order|] == order;
        order := order + [id];
        added := added + [RemovalEvent(existing, now, id)];
        rows := rows - {id};
      }
      if commits {
        inventory := rows;
        events := events + added;
      }
    }
  }
}
