/**
 * The body of the polling loop in `main`: one tick compares the device ids of
 * the new snapshot with those stored from the previous tick, reports the
 * differences as events, and replaces the stored set.
 */
module Monitor {
  import opened Wrappers
  import opened Records
  import EventLog
  import Enumerator

  datatype EventKind = Connected | Disconnected

  /** One call of `log_device_event`: the event type and the dictionary passed. */
  datatype Event = Event(kind: EventKind, record: Record)

  function KindName(k: EventKind): string {
    match k
    case Connected => "Connected"
    case Disconnected => "Disconnected"
  }

  /** The log line an event produces. */
  function Message(e: Event): string {
    EventLog.FormatMessage(KindName(e.kind), e.record)
  }

  predicate AllHaveIds(devices: seq<Record>) {
    forall d :: d in devices ==> HasId(d)
  }

  /** The Connected events of a tick: each entry of `current` whose id was not stored, in order. */
  function ConnectedEvents(previous: set<string>, current: seq<Record>): seq<Event>
    requires AllHaveIds(current)
    decreases |current|
  {
    if current == [] then []
    else
      var d := current[|current| - 1];
      ConnectedEvents(previous, current[..|current| - 1]) + if Id(d) !in previous then [Event(Connected, d)] else []
  }

  /** The dictionary logged for a vanished device: `{"device": id}`. */
  function Minimal(id: string): Record {
    map[DEVICE := Str(id)]
  }

  /** The Disconnected events for the vanished ids, in the order they were visited. */
  function DisconnectedEvents(ids: seq<string>): seq<Event>
    decreases |ids|
  {
    if ids == [] then []
    else DisconnectedEvents(ids[..|ids| - 1]) + [Event(Disconnected, Minimal(ids[|ids| - 1]))]
  }

  /** How many events of `kind` name `id`. */
  function CountEvents(events: seq<Event>, kind: EventKind, id: string): nat
    decreases |events|
  {
    if events == [] then 0
    else
      var e := events[|events| - 1];
      CountEvents(events[..|events| - 1], kind, id) + if e.kind == kind && HasId(e.record) && Id(e.record) == id then 1 else 0
  }

  /** How many entries of `devices` carry `id`. */
  function CountId(devices: seq<Record>, id: string): nat
    requires AllHaveIds(devices)
    decreases |devices|
  {
    if devices == [] then 0
    else CountId(devices[..|devices| - 1], id) + if Id(devices[|devices| - 1]) == id then 1 else 0
  }

  // ---------------------------------------------------------------------
  // Properties of one tick

  /** A Connected event is emitted exactly for the entries of `current` whose id was not stored. */
  lemma {:induction false} ConnectedEventsMembers(previous: set<string>, current: seq<Record>)
    requires AllHaveIds(current)
    ensures forall e :: e in ConnectedEvents(previous, current) <==>
      e.kind == Connected && e.record in current && Id(e.record) !in previous
    decreases |current|
  {
    if current != [] {
      var init := current[..|current| - 1];
      ConnectedEventsMembers(previous, init);
      assert current == init + [current[|current| - 1]];
    }
  }

  /** Ids already stored produce no Connected event. */
  lemma {:induction false} KnownIdsSilent(previous: set<string>, current: seq<Record>)
    requires AllHaveIds(current)
    requires Ids(current) <= previous
    ensures ConnectedEvents(previous, current) == []
    decreases |current|
  {
    if current != [] {
      var init := current[..|current| - 1];
      assert current[|current| - 1] in current;
      assert Ids(init) <= Ids(current) by {
        forall id | id in Ids(init) ensures id in Ids(current) {
          var d :| d in init && Id(d) == id;
          assert d in current;
        }
      }
      KnownIdsSilent(previous, init);
    }
  }

  /** Connected events follow `current`'s order: the events of a concatenation concatenate. */
  lemma {:induction false} ConnectedEventsAppend(previous: set<string>, c1: seq<Record>, c2: seq<Record>)
    requires AllHaveIds(c1) && AllHaveIds(c2)
    ensures AllHaveIds(c1 + c2)
    ensures ConnectedEvents(previous, c1 + c2) == ConnectedEvents(previous, c1) + ConnectedEvents(previous, c2)
    decreases |c2|
  {
    if c2 == [] {
      assert c1 + c2 == c1;
    } else {
      var init := c2[..|c2| - 1];
      ConnectedEventsAppend(previous, c1, init);
      assert (c1 + c2)[..|c1 + c2| - 1] == c1 + init;
    }
  }

  lemma CountEventsSnoc(es: seq<Event>, e: Event, kind: EventKind, id: string)
    ensures CountEvents(es + [e], kind, id) ==
      CountEvents(es, kind, id) + if e.kind == kind && HasId(e.record) && Id(e.record) == id then 1 else 0
  {
    assert (es + [e])[..|es|] == es;
  }

  lemma AllHaveIdsInit(devices: seq<Record>)
    requires AllHaveIds(devices) && devices != []
    ensures AllHaveIds(devices[..|devices| - 1]) && HasId(devices[|devices| - 1])
  {
    assert devices[|devices| - 1] in devices;
    forall d | d in devices[..|devices| - 1] ensures HasId(d) {
      assert d in devices;
    }
  }

  /** An id gets as many Connected events as `current` has entries for it, or none if it was stored. */
  lemma {:induction false} ConnectedCount(previous: set<string>, current: seq<Record>, id: string)
    requires AllHaveIds(current)
    ensures CountEvents(ConnectedEvents(previous, current), Connected, id) == if id in previous then 0 else CountId(current, id)
    ensures CountEvents(ConnectedEvents(previous, current), Disconnected, id) == 0
    decreases |current|
  {
    if current != [] {
      AllHaveIdsInit(current);
      var init := current[..|current| - 1];
      var d := current[|current| - 1];
      ConnectedCount(previous, init, id);
      var before := ConnectedEvents(previous, init);
      assert CountId(current, id) == CountId(init, id) + if Id(d) == id then 1 else 0;
      if Id(d) !in previous {
        assert ConnectedEvents(previous, current) == before + [Event(Connected, d)];
        CountEventsSnoc(before, Event(Connected, d), Connected, id);
        CountEventsSnoc(before, Event(Connected, d), Disconnected, id);
      } else {
        assert ConnectedEvents(previous, current) == before;
      }
    }
  }

  /** In a snapshot without repeated ids, each new id is reported exactly once. */
  lemma {:induction false} CountIdDistinct(current: seq<Record>, id: string)
    requires AllHaveIds(current)
    requires forall i, j :: 0 <= i < j < |current| ==> Id(current[i]) != Id(current[j])
    ensures CountId(current, id) == if id in Ids(current) then 1 else 0
    decreases |current|
  {
    if current != [] {
      var init := current[..|current| - 1];
      var d := current[|current| - 1];
      CountIdDistinct(init, id);
      assert current == init + [d];
      if Id(d) == id {
        forall e | e in init ensures Id(e) != id {
          var i :| 0 <= i < |init| && init[i] == e;
          assert current[i] == e;
        }
      }
    }
  }

  /** Each Disconnected event carries just the id it is for, in the visiting order. */
  lemma {:induction false} DisconnectedEventsAt(ids: seq<string>)
    ensures |DisconnectedEvents(ids)| == |ids|
    ensures forall i :: 0 <= i < |ids| ==> DisconnectedEvents(ids)[i] == Event(Disconnected, Minimal(ids[i]))
    decreases |ids|
  {
    if ids != [] {
      DisconnectedEventsAt(ids[..|ids| - 1]);
    }
  }

  /** An id gets as many Disconnected events as it occurs in the visiting order, and no Connected one. */
  lemma {:induction false} DisconnectedCount(ids: seq<string>, id: string)
    ensures CountEvents(DisconnectedEvents(ids), Disconnected, id) == multiset(ids)[id]
    ensures CountEvents(DisconnectedEvents(ids), Connected, id) == 0
    decreases |ids|
  {
    if ids != [] {
      var init := ids[..|ids| - 1];
      DisconnectedCount(init, id);
      assert ids == init + [ids[|ids| - 1]];
      var es := DisconnectedEvents(ids);
      assert es[..|es| - 1] == DisconnectedEvents(init);
    }
  }

  lemma {:induction false} CountEventsAppend(a: seq<Event>, b: seq<Event>, kind: EventKind, id: string)
    ensures CountEvents(a + b, kind, id) == CountEvents(a, kind, id) + CountEvents(b, kind, id)
    decreases |b|
  {
    if b == [] {
      assert a + b == a;
    } else {
      CountEventsAppend(a, b[..|b| - 1], kind, id);
      assert (a + b)[..|a + b| - 1] == a + b[..|b| - 1];
    }
  }

  /**
   * The events of a tick reflect the set differences: an id gets one
   * Disconnected event if it was stored and is gone, none otherwise; and
   * Connected events only if it was not stored, one per entry of `current`.
   */
  lemma TickEventCounts(previous: set<string>, current: seq<Record>, order: seq<string>, id: string)
    requires AllHaveIds(current)
    requires multiset(order) == multiset(previous - Ids(current))
    ensures var events := ConnectedEvents(previous, current) + DisconnectedEvents(order);
      && CountEvents(events, Disconnected, id) == (if id in previous && id !in Ids(current) then 1 else 0)
      && CountEvents(events, Connected, id) == (if id in previous then 0 else CountId(current, id))
  {
    ConnectedCount(previous, current, id);
    DisconnectedCount(order, id);
    CountEventsAppend(ConnectedEvents(previous, current), DisconnectedEvents(order), Disconnected, id);
    CountEventsAppend(ConnectedEvents(previous, current), DisconnectedEvents(order), Connected, id);
  }

  /** Within a tick no Connected event comes after a Disconnected one. */
  lemma ConnectedBeforeDisconnected(previous: set<string>, current: seq<Record>, order: seq<string>)
    requires AllHaveIds(current)
    ensures var events := ConnectedEvents(previous, current) + DisconnectedEvents(order);
      forall i, j :: 0 <= i < j < |events| && events[i].kind == Disconnected ==> events[j].kind == Disconnected
  {
    var cs := ConnectedEvents(previous, current);
    ConnectedEventsMembers(previous, current);
    DisconnectedEventsAt(order);
    forall i | 0 <= i < |cs| ensures cs[i].kind == Connected {
      assert cs[i] in cs;
    }
  }

  /**
   * A tick is silent exactly when the stored ids equal the snapshot's ids:
   * repeating a snapshot, or remounting a device under the same id, logs nothing.
   */
  lemma SilentIffSameIds(previous: set<string>, current: seq<Record>, order: seq<string>)
    requires AllHaveIds(current)
    requires multiset(order) == multiset(previous - Ids(current))
    ensures ConnectedEvents(previous, current) + DisconnectedEvents(order) == [] <==> previous == Ids(current)
  {
    ConnectedEventsMembers(previous, current);
    DisconnectedEventsAt(order);
    if ConnectedEvents(previous, current) + DisconnectedEvents(order) == [] {
      forall id | id in Ids(current) ensures id in previous {
        var d :| d in current && Id(d) == id;
        assert Event(Connected, d) !in ConnectedEvents(previous, current);
      }
      assert |order| == 0;
      assert multiset(previous - Ids(current)) == multiset{};
    } else if previous == Ids(current) {
      assert multiset(order) == multiset{};
      assert order == [];
      KnownIdsSilent(previous, current);
    }
  }

  /** Disconnected log lines: the id, then N/A for every other field. */
  lemma DisconnectedLogLines(ids: seq<string>)
    ensures |DisconnectedEvents(ids)| == |ids|
    ensures forall i :: 0 <= i < |ids| ==>
      Message(DisconnectedEvents(ids)[i]) ==
        "USB Device Disconnected: Device: " + ids[i] + ", Mountpoint: N/A" + ", Filesystem: N/A"
        + ", Vendor ID: N/A" + ", Product ID: N/A" + ", Serial Number: N/A"
  {
    DisconnectedEventsAt(ids);
    forall i | 0 <= i < |ids|
      ensures Message(DisconnectedEvents(ids)[i]) ==
        "USB Device Disconnected: Device: " + ids[i] + ", Mountpoint: N/A" + ", Filesystem: N/A"
        + ", Vendor ID: N/A" + ", Product ID: N/A" + ", Serial Number: N/A"
    {
      EventLog.DisconnectedMessage(ids[i]);
    }
  }

  /** The poll loop's only state: the ids seen on the previous tick. */
  class PollState {
    var previous: set<string>

    constructor ()
      ensures previous == {}
    {
      previous := {};
    }

    /**
     * One tick on the snapshot `current`. The Disconnected events follow the
     * set's iteration order, which nothing fixes; `order` names the order taken.
     */
    method Tick(current: seq<Record>) returns (events: seq<Event>, ghost order: seq<string>)
      requires AllHaveIds(current)
      modifies this
      ensures previous == Ids(current)
      ensures multiset(order) == multiset(old(previous) - Ids(current))
      ensures events == ConnectedEvents(old(previous), current) + DisconnectedEvents(order)
    {
      var currentIds := Ids(current);
      var newDevices := currentIds - previous;
      events := [];
      for k := 0 to |current|
        invariant events == ConnectedEvents(previous, current[..k])
      {
        assert current[..k + 1][..k] == current[..k];
        var device := current[k];
        assert device in current;
        if Id(device) in newDevices {
          events := events + [Event(Connected, device)];
        }
      }
      assert current[..|current|] == current;
      var disconnected := previous - currentIds;
      var remaining := disconnected;
      order := [];
      while remaining != {}
        invariant remaining <= disconnected
        invariant multiset(order) + multiset(remaining) == multiset(disconnected)
        invariant events == ConnectedEvents(previous, current) + DisconnectedEvents(order)
        decreases |remaining|
      {
        var deviceId :| deviceId in remaining;
        events := events + [Event(Disconnected, Minimal(deviceId))];
        assert remaining == (remaining - {deviceId}) + {deviceId};
        order := order + [deviceId];
        remaining := remaining - {deviceId};
      }
      previous := currentIds;
    }

    /** One iteration of the poll loop: take a snapshot, then run the tick on it. */
    method Poll(parts: Option<seq<Enumerator.Partition>>, usage: map<string, Enumerator.DiskUsage>,
                probe: Enumerator.Probe)
      returns (events: seq<Event>, ghost order: seq<string>)
      modifies this
      ensures AllHaveIds(Enumerator.Snapshot(parts, usage, probe))
      ensures previous == Ids(Enumerator.Snapshot(parts, usage, probe))
      ensures multiset(order) == multiset(old(previous) - previous)
      ensures events == ConnectedEvents(old(previous), Enumerator.Snapshot(parts, usage, probe)) + DisconnectedEvents(order)
    {
      var currentDevices := Enumerator.GetConnectedUsbDevices(parts, usage, probe);
      Enumerator.SnapshotIds(parts, usage, probe);
      events, order := Tick(currentDevices);
    }
  }

  /** Feeding the same snapshot to two consecutive ticks: the second logs nothing. */
  method RepeatedSnapshot(current: seq<Record>) returns (first: seq<Event>, second: seq<Event>)
    requires AllHaveIds(current)
    ensures first == ConnectedEvents({}, current)
    ensures second == []
  {
    var state := new PollState();
    ghost var order;
    first, order := state.Tick(current);
    assert order == [] by {
      assert multiset(order) == multiset{};
    }
    second, order := state.Tick(current);
    SilentIffSameIds(Ids(current), current, order);
  }

  /** From an empty state, two new devices are reported in snapshot order. */
  method FirstTickReportsInOrder(a: Record, b: Record) returns (events: seq<Event>)
    requires HasId(a) && HasId(b) && Id(a) != Id(b)
    ensures events == [Event(Connected, a), Event(Connected, b)]
  {
    var state := new PollState();
    ghost var order;
    events, order := state.Tick([a, b]);
    assert order == [] by {
      assert multiset(order) == multiset{};
    }
    assert [a, b][..1] == [a];
    assert ConnectedEvents({}, [a]) == [Event(Connected, a)] by {
      assert [a][..0] == [];
    }
    assert ConnectedEvents({}, [a, b]) == [Event(Connected, a), Event(Connected, b)];
    assert DisconnectedEvents(order) == [];
  }

  /** After {A, B}, a snapshot holding only B reports the disconnection of A and nothing else. */
  method OneDeviceRemoved(a: Record, b: Record) returns (events: seq<Event>)
    requires HasId(a) && HasId(b) && Id(a) != Id(b)
    ensures events == [Event(Disconnected, map[DEVICE := Str(Id(a))])]
  {
    var state := new PollState();
    ghost var order;
    events, order := state.Tick([a, b]);
    PairIds(a, b);
    events, order := state.Tick([b]);
    SingleVanished(a, b, order);
    KnownIdsSilent({Id(a), Id(b)}, [b]);
  }

  lemma PairIds(a: Record, b: Record)
    requires HasId(a) && HasId(b)
    ensures Ids([a, b]) == {Id(a), Id(b)}
  {
    assert a in [a, b] && b in [a, b];
  }

  lemma SingleVanished(a: Record, b: Record, order: seq<string>)
    requires HasId(a) && HasId(b) && Id(a) != Id(b)
    requires multiset(order) == multiset({Id(a), Id(b)} - Ids([b]))
    ensures DisconnectedEvents(order) == [Event(Disconnected, map[DEVICE := Str(Id(a))])]
  {
    assert Ids([b]) == {Id(b)};
    assert {Id(a), Id(b)} - {Id(b)} == {Id(a)};
    assert |order| == 1 && order[0] in multiset(order);
    assert order == [Id(a)];
    assert order[..0] == [];
  }

  /** A device seen again under the same id, mounted elsewhere, is not a transition. */
  method RemountIsSilent(before: Record, after: Record) returns (events: seq<Event>)
    requires HasId(before) && HasId(after) && Id(before) == Id(after)
    ensures events == []
  {
    var state := new PollState();
    ghost var order;
    events, order := state.Tick([before]);
    assert Ids([before]) == Ids([after]);
    events, order := state.Tick([after]);
    SilentIffSameIds(Ids([before]), [after], order);
  }
}
