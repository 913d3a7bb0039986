/** Looking for a bus in the tree of buses and devices, preferring one that can take another device. */
module BusSearch {
  import opened Options

  datatype Bus = Bus(name: string, types: set<string>, maxDev: nat, maxIndex: nat, devices: seq<Device>) {
    // qbus_is_full; a limit of 0 is no limit.
    predicate Full() { maxDev != 0 && maxIndex >= maxDev }
  }

  datatype Device = Device(buses: seq<Bus>)

  datatype Query = ByName(name: string) | ByType(typename: string) {
    predicate Matches(b: Bus) {
      match this
      case ByName(n) => b.name == n
      case ByType(t) => t in b.types
    }
  }

  // The buses of a tree in preorder.

  function Preorder(b: Bus): seq<Bus>
    decreases b
  {
    [b] + OfDevices(b.devices)
  }

  function OfDevices(devices: seq<Device>): seq<Bus>
    decreases devices
  {
    if devices == [] then [] else
      assert devices[0] in devices;
      OfBuses(devices[0].buses) + OfDevices(devices[1..])
  }

  function OfBuses(buses: seq<Bus>): seq<Bus>
    decreases buses
  {
    if buses == [] then [] else Preorder(buses[0]) + OfBuses(buses[1..])
  }

  // The way from a bus to one below it, by the positions of the device and of the bus on it.

  datatype Turn = Turn(device: nat, bus: nat)

  predicate Leads(b: Bus, t: Turn) {
    t.device < |b.devices| && t.bus < |b.devices[t.device].buses|
  }

  function Child(b: Bus, t: Turn): Bus
    requires Leads(b, t)
  {
    b.devices[t.device].buses[t.bus]
  }

  predicate IsPath(b: Bus, path: seq<Turn>)
    decreases |path|
  {
    path == [] || (Leads(b, path[0]) && IsPath(Child(b, path[0]), path[1..]))
  }

  function BusAt(b: Bus, path: seq<Turn>): Bus
    requires IsPath(b, path)
    decreases |path|
  {
    if path == [] then b else BusAt(Child(b, path[0]), path[1..])
  }

  // A bus comes before those below it, and what is below it is searched device by device and bus by bus.
  predicate Before(p: seq<Turn>, q: seq<Turn>) {
    q != [] && (p == [] || Earlier(p[0], q[0]) || (p[0] == q[0] && Before(p[1..], q[1..])))
  }

  predicate Earlier(t: Turn, u: Turn) {
    t.device < u.device || (t.device == u.device && t.bus < u.bus)
  }

  // Where the part of a child begins in the preorder.
  function Start(b: Bus, t: Turn): nat
    requires Leads(b, t)
  {
    1 + |OfDevices(b.devices[..t.device])| + |OfBuses(b.devices[t.device].buses[..t.bus])|
  }

  function Position(b: Bus, path: seq<Turn>): nat
    requires IsPath(b, path)
    decreases |path|
  {
    if path == [] then 0 else Start(b, path[0]) + Position(Child(b, path[0]), path[1..])
  }

  /** In the preorder every bus of the tree has a place ... */
  lemma {:induction false} Placed(b: Bus, path: seq<Turn>)
    requires IsPath(b, path)
    ensures Position(b, path) < |Preorder(b)| && Preorder(b)[Position(b, path)] == BusAt(b, path)
    decreases |path|
  {
    if path != [] {
      hide Preorder;
      Placed(Child(b, path[0]), path[1..]);
      Part(b, path[0]);
    }
  }

  /** ... in the order of the search ... */
  lemma {:induction false} PlacedInOrder(b: Bus, p: seq<Turn>, q: seq<Turn>)
    requires IsPath(b, p) && IsPath(b, q) && Before(p, q)
    ensures Position(b, p) < Position(b, q)
    decreases |p|
  {
    if p != [] {
      if Earlier(p[0], q[0]) {
        Placed(Child(b, p[0]), p[1..]);
        PartsApart(b, p[0], q[0]);
      } else {
        PlacedInOrder(Child(b, p[0]), p[1..], q[1..]);
      }
    }
  }

  /** ... and there is nothing else in it. */
  lemma {:induction false} Reached(b: Bus, i: nat) returns (path: seq<Turn>)
    requires i < |Preorder(b)|
    ensures IsPath(b, path) && Position(b, path) == i
    decreases b
  {
    path := [];
    if i > 0 {
      var turn := PartOf(b, i);
      assert Child(b, turn) in b.devices[turn.device].buses;
      var rest := Reached(Child(b, turn), i - Start(b, turn));
      path := [turn] + rest;
    }
  }

  lemma DevicesStep(devices: seq<Device>)
    requires devices != []
    ensures OfDevices(devices) == OfBuses(devices[0].buses) + OfDevices(devices[1..])
  {
  }

  lemma BusesStep(buses: seq<Bus>)
    requires buses != []
    ensures OfBuses(buses) == Preorder(buses[0]) + OfBuses(buses[1..])
  {
  }

  lemma Regrouped(a: seq<Bus>, b: seq<Bus>, c: seq<Bus>)
    ensures a + (b + c) == a + b + c
  {
  }

  lemma DevicesNone()
    ensures OfDevices([]) == []
  {
  }

  lemma BusesNone()
    ensures OfBuses([]) == []
  {
  }

  lemma {:induction false} DevicesAppend(a: seq<Device>, b: seq<Device>)
    ensures OfDevices(a + b) == OfDevices(a) + OfDevices(b)
  {
    DevicesNone();
    hide OfDevices, OfBuses;
    if a == [] {
      assert a + b == b;
    } else {
      assert (a + b)[1..] == a[1..] + b;
      DevicesStep(a);
      DevicesStep(a + b);
      DevicesAppend(a[1..], b);
      Regrouped(OfBuses(a[0].buses), OfDevices(a[1..]), OfDevices(b));
    }
  }

  lemma {:induction false} BusesAppend(a: seq<Bus>, b: seq<Bus>)
    ensures OfBuses(a + b) == OfBuses(a) + OfBuses(b)
  {
    BusesNone();
    hide OfBuses, Preorder;
    if a == [] {
      assert a + b == b;
    } else {
      assert (a + b)[1..] == a[1..] + b;
      BusesStep(a);
      BusesStep(a + b);
      BusesAppend(a[1..], b);
      Regrouped(Preorder(a[0]), OfBuses(a[1..]), OfBuses(b));
    }
  }

  lemma Divided<T>(s: seq<T>, n: nat)
    requires n < |s|
    ensures s == s[..n + 1] + s[n + 1..] && s[..n + 1] == s[..n] + [s[n]]
  {
  }

  lemma OneDevice(d: Device)
    ensures OfDevices([d]) == OfBuses(d.buses)
  {
    DevicesNone();
    assert OfDevices([d]) == OfBuses(d.buses) + OfDevices([]);
  }

  lemma OneBus(b: Bus)
    ensures OfBuses([b]) == Preorder(b)
  {
    BusesNone();
    assert OfBuses([b]) == Preorder(b) + OfBuses([]);
  }

  lemma DeviceSplit(devices: seq<Device>, d: nat)
    requires d < |devices|
    ensures OfDevices(devices) == OfDevices(devices[..d + 1]) + OfDevices(devices[d + 1..])
    ensures OfDevices(devices[..d + 1]) == OfDevices(devices[..d]) + OfBuses(devices[d].buses)
  {
    hide OfDevices, OfBuses;
    Divided(devices, d);
    OneDevice(devices[d]);
    DevicesAppend(devices[..d + 1], devices[d + 1..]);
    DevicesAppend(devices[..d], [devices[d]]);
  }

  lemma BusSplit(buses: seq<Bus>, k: nat)
    requires k < |buses|
    ensures OfBuses(buses) == OfBuses(buses[..k + 1]) + OfBuses(buses[k + 1..])
    ensures OfBuses(buses[..k + 1]) == OfBuses(buses[..k]) + Preorder(buses[k])
  {
    hide OfBuses, Preorder;
    Divided(buses, k);
    OneBus(buses[k]);
    BusesAppend(buses[..k + 1], buses[k + 1..]);
    BusesAppend(buses[..k], [buses[k]]);
  }

  lemma Part(b: Bus, t: Turn)
    requires Leads(b, t)
    ensures Start(b, t) + |Preorder(Child(b, t))| <= |Preorder(b)|
    ensures forall i | 0 <= i < |Preorder(Child(b, t))| :: Preorder(b)[Start(b, t) + i] == Preorder(Child(b, t))[i]
  {
    DeviceSplit(b.devices, t.device);
    BusSplit(b.devices[t.device].buses, t.bus);
    assert Preorder(b) == [b] + OfDevices(b.devices);
    hide Preorder, OfDevices, OfBuses;
  }

  lemma PartsApart(b: Bus, t: Turn, u: Turn)
    requires Leads(b, t) && Leads(b, u) && Earlier(t, u)
    ensures Start(b, t) + |Preorder(Child(b, t))| <= Start(b, u)
  {
    hide Preorder, OfDevices, OfBuses;
    var buses := b.devices[t.device].buses;
    BusSplit(buses, t.bus);
    if t.device < u.device {
      DeviceSplit(b.devices, t.device);
      assert b.devices[..u.device] == b.devices[..t.device + 1] + b.devices[t.device + 1..u.device];
      DevicesAppend(b.devices[..t.device + 1], b.devices[t.device + 1..u.device]);
    } else {
      assert buses[..u.bus] == buses[..t.bus + 1] + buses[t.bus + 1..u.bus];
      BusesAppend(buses[..t.bus + 1], buses[t.bus + 1..u.bus]);
    }
  }

  lemma PartOf(b: Bus, i: nat) returns (t: Turn)
    requires 0 < i < |Preorder(b)|
    ensures Leads(b, t) && Start(b, t) <= i < Start(b, t) + |Preorder(Child(b, t))|
  {
    assert Preorder(b) == [b] + OfDevices(b.devices);
    var d := DeviceOf(b.devices, i - 1);
    var k := BusOf(b.devices[d].buses, i - 1 - |OfDevices(b.devices[..d])|);
    t := Turn(d, k);
  }

  lemma DeviceOf(devices: seq<Device>, i: nat) returns (d: nat)
    requires i < |OfDevices(devices)|
    ensures d < |devices|
    ensures |OfDevices(devices[..d])| <= i < |OfDevices(devices[..d])| + |OfBuses(devices[d].buses)|
  {
    d := |devices| - 1;
    assert devices[..|devices|] == devices;
    while i < |OfDevices(devices[..d])|
      invariant d < |devices| && i < |OfDevices(devices[..d + 1])|
      decreases d
    {
      d := d - 1;
    }
    DeviceSplit(devices, d);
  }

  lemma BusOf(buses: seq<Bus>, i: nat) returns (k: nat)
    requires i < |OfBuses(buses)|
    ensures k < |buses| && |OfBuses(buses[..k])| <= i < |OfBuses(buses[..k])| + |Preorder(buses[k])|
  {
    k := |buses| - 1;
    assert buses[..|buses|] == buses;
    while i < |OfBuses(buses[..k])|
      invariant k < |buses| && i < |OfBuses(buses[..k + 1])|
      decreases k
    {
      k := k - 1;
    }
    BusSplit(buses, k);
  }

  /** The first bus of the list that matches and is not full, or else the first that matches. */
  function Pick(q: Query, s: seq<Bus>): Option<Bus> {
    if s == [] then None
    else if !q.Matches(s[0]) then Pick(q, s[1..])
    else if !s[0].Full() then Some(s[0])
    else
      var later := Pick(q, s[1..]);
      if later.Some? && !later.value.Full() then later else Some(s[0])
  }

  predicate Free(q: Query, b: Bus) {
    q.Matches(b) && !b.Full()
  }

  /** The first bus that matches and can take a device is picked, whatever matches before it. */
  lemma {:induction false} FirstFreePicked(q: Query, s: seq<Bus>, i: nat)
    requires i < |s| && Free(q, s[i]) && forall j | 0 <= j < i :: !Free(q, s[j])
    ensures Pick(q, s) == Some(s[i])
  {
    hide Query.Matches;
    if i > 0 {
      assert !Free(q, s[0]);
      assert forall j | 0 <= j < i - 1 :: s[1..][j] == s[j + 1];
      FirstFreePicked(q, s[1..], i - 1);
    }
  }

  /** Without such a bus, it is the first that matches. */
  lemma {:induction false} FirstMatchPicked(q: Query, s: seq<Bus>, i: nat)
    requires i < |s| && q.Matches(s[i]) && forall j | 0 <= j < i :: !q.Matches(s[j])
    requires forall j | 0 <= j < |s| :: !Free(q, s[j])
    ensures Pick(q, s) == Some(s[i])
  {
    hide Query.Matches;
    assert forall j | 0 <= j < |s| - 1 :: s[1..][j] == s[j + 1];
    if i > 0 {
      assert !q.Matches(s[0]);
      FirstMatchPicked(q, s[1..], i - 1);
    } else {
      NoFreePick(q, s[1..]);
    }
  }

  lemma {:induction false} NoFreePick(q: Query, s: seq<Bus>)
    requires forall j | 0 <= j < |s| :: !Free(q, s[j])
    ensures Pick(q, s).Some? ==> Pick(q, s).value.Full()
  {
    if s != [] {
      assert !Free(q, s[0]);
      assert forall j | 0 <= j < |s| - 1 :: s[1..][j] == s[j + 1];
      NoFreePick(q, s[1..]);
    }
  }

  /** There is a pick exactly when something matches. */
  lemma {:induction false} PickExists(q: Query, s: seq<Bus>)
    ensures Pick(q, s).Some? <==> exists b :: b in s && q.Matches(b)
  {
    hide Query.Matches;
    if s != [] {
      PickExists(q, s[1..]);
      assert s == [s[0]] + s[1..];
    }
  }

  // What the search keeps from two lists, one before the other.
  function Better(first: Option<Bus>, second: Option<Bus>): Option<Bus> {
    if first.Some? && !first.value.Full() then first
    else if second.Some? && !second.value.Full() then second
    else if first.Some? then first
    else second
  }

  lemma {:induction false} PickAppend(q: Query, a: seq<Bus>, b: seq<Bus>)
    ensures Pick(q, a + b) == Better(Pick(q, a), Pick(q, b))
  {
    if a == [] {
      assert a + b == b;
    } else {
      PickAppend(q, a[1..], b);
      assert (a + b)[1..] == a[1..] + b;
    }
  }

  // qbus_find_recursive
  method FindRecursive(bus: Bus, q: Query) returns (pick: Option<Bus>)
    ensures pick == Pick(q, Preorder(bus))
    decreases bus, 1
  {
    hide Pick, Query.Matches, Bus.Full;
    PickOne(q, bus);
    PickAppend(q, [bus], OfDevices(bus.devices));
    var found := q.Matches(bus);
    if found && !bus.Full() {
      return Some(bus);
    }
    pick := if found then Some(bus) else None;
    for d := 0 to |bus.devices|
      invariant Pick(q, Preorder(bus)) == Better(pick, Pick(q, OfDevices(bus.devices[d..])))
      invariant pick.Some? ==> pick.value.Full()
    {
      var buses := bus.devices[d].buses;
      ghost var later := OfDevices(bus.devices[d + 1..]);
      assert bus.devices[d..][1..] == bus.devices[d + 1..];
      PickAppend(q, OfBuses(buses), later);
      for b := 0 to |buses|
        invariant Pick(q, Preorder(bus)) == Better(pick, Better(Pick(q, OfBuses(buses[b..])), Pick(q, later)))
        invariant pick.Some? ==> pick.value.Full()
      {
        assert buses[b..][1..] == buses[b + 1..];
        PickAppend(q, Preorder(buses[b]), OfBuses(buses[b + 1..]));
        var ret := FindRecursive(buses[b], q);
        if ret.Some? && !ret.value.Full() {
          return ret;
        }
        if ret.Some? && pick.None? {
          pick := ret;
        }
      }
      PickNothing(q);
    }
    PickNothing(q);
  }

  lemma PickOne(q: Query, b: Bus)
    ensures Pick(q, [b]) == if q.Matches(b) then Some(b) else None
  {
  }

  lemma PickNothing(q: Query)
    ensures Pick(q, OfBuses([])) == None && Pick(q, OfDevices([])) == None
  {
  }
}
