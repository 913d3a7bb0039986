/** Which devices sit on which bus: the child lists of the buses and the parent pointers of the devices. */
module BusMembership {

  class Device {
    var parentBus: Bus?
    var refs: int

    constructor ()
      ensures parentBus == null && refs == 1
    {
      parentBus, refs := null, 1;
    }
  }

  datatype Kid = Kid(index: nat, child: Device)

  // Later children come first; no index is ever used twice.
  ghost predicate Numbered(kids: seq<Kid>, maxIndex: nat) {
    && (forall i | 0 <= i < |kids| :: kids[i].index < maxIndex)
    && (forall i, j | 0 <= i < j < |kids| :: kids[i].index > kids[j].index)
  }

  ghost predicate Holds(kids: seq<Kid>, d: Device) {
    exists i :: 0 <= i < |kids| && kids[i].child == d
  }

  ghost predicate Once(kids: seq<Kid>) {
    forall i, j | 0 <= i < j < |kids| :: kids[i].child != kids[j].child
  }

  // The position of a device; |kids| if it is not there.
  function KidAt(kids: seq<Kid>, d: Device): (n: nat)
    ensures n <= |kids|
    ensures n < |kids| ==> kids[n].child == d
    ensures forall i | 0 <= i < n :: kids[i].child != d
  {
    if kids == [] || kids[0].child == d then 0 else 1 + KidAt(kids[1..], d)
  }

  function Without(kids: seq<Kid>, d: Device): seq<Kid> {
    var n := KidAt(kids, d);
    if n < |kids| then kids[..n] + kids[n + 1..] else kids
  }

  lemma WithoutOne(kids: seq<Kid>, d: Device, maxIndex: nat)
    requires Numbered(kids, maxIndex) && Once(kids)
    ensures Numbered(Without(kids, d), maxIndex) && Once(Without(kids, d))
    ensures forall e :: Holds(Without(kids, d), e) <==> Holds(kids, e) && e != d
  {
    WithoutNumbered(kids, d, maxIndex);
    hide Holds, Numbered, Without;
    forall e
      ensures Holds(Without(kids, d), e) <==> Holds(kids, e) && e != d
    {
      WithoutHolds(kids, d, e);
    }
  }

  lemma WithoutNumbered(kids: seq<Kid>, d: Device, maxIndex: nat)
    requires Numbered(kids, maxIndex) && Once(kids)
    ensures Numbered(Without(kids, d), maxIndex) && Once(Without(kids, d))
  {
    hide KidAt;
  }

  lemma WithoutHolds(kids: seq<Kid>, d: Device, e: Device)
    requires Once(kids)
    ensures Holds(Without(kids, d), e) <==> Holds(kids, e) && e != d
  {
    var n, left := KidAt(kids, d), Without(kids, d);
    if i :| 0 <= i < |kids| && kids[i].child == e && e != d {
      assert left[if i < n then i else i - 1] == kids[i];
    }
    if i :| 0 <= i < |left| && left[i].child == e {
      assert left[i] == kids[if i < n then i else i + 1];
    }
  }

  lemma WithNew(kids: seq<Kid>, d: Device, maxIndex: nat)
    requires Numbered(kids, maxIndex) && Once(kids) && !Holds(kids, d)
    ensures Numbered([Kid(maxIndex, d)] + kids, maxIndex + 1) && Once([Kid(maxIndex, d)] + kids)
    ensures forall e :: Holds([Kid(maxIndex, d)] + kids, e) <==> Holds(kids, e) || e == d
  {
    NewNumbered(kids, d, maxIndex);
    forall e
      ensures Holds([Kid(maxIndex, d)] + kids, e) <==> Holds(kids, e) || e == d
    {
      NewHolds(kids, Kid(maxIndex, d), e);
    }
    hide Holds, Numbered;
  }

  lemma NewNumbered(kids: seq<Kid>, d: Device, maxIndex: nat)
    requires Numbered(kids, maxIndex) && Once(kids) && !Holds(kids, d)
    ensures Numbered([Kid(maxIndex, d)] + kids, maxIndex + 1) && Once([Kid(maxIndex, d)] + kids)
  {
    assert forall i | 0 <= i < |kids| :: kids[i].child != d;
    hide Holds;
  }

  lemma NewHolds(kids: seq<Kid>, kid: Kid, e: Device)
    ensures Holds([kid] + kids, e) <==> Holds(kids, e) || e == kid.child
  {
    var more := [kid] + kids;
    assert more[0].child == kid.child;
    if i :| 0 <= i < |kids| && kids[i].child == e {
      assert more[i + 1] == kids[i];
    }
    if i :| 0 <= i < |more| && more[i].child == e {
      assert i > 0 ==> more[i] == kids[i - 1];
    }
  }

  class Bus {
    const maxDev: nat
    var kids: seq<Kid>
    var maxIndex: nat
    var refs: int

    constructor (maxDev: nat)
      ensures this.maxDev == maxDev && kids == [] && maxIndex == 0 && refs == 1
    {
      this.maxDev, kids, maxIndex, refs := maxDev, [], 0, 1;
    }

    ghost predicate Valid()
      reads this
    {
      Numbered(kids, maxIndex) && Once(kids)
    }

    // qbus_is_full
    predicate Full()
      reads this
    {
      maxDev != 0 && maxIndex >= maxDev
    }

    // bus_remove_child. The room is not given back: what was full stays full.
    method RemoveChild(d: Device)
      requires Valid()
      modifies this`kids, d`refs
      ensures Valid() && kids == Without(old(kids), d) && Full() == old(Full())
      ensures forall e :: Holds(kids, e) <==> Holds(old(kids), e) && e != d
      ensures d.refs == old(d.refs) - (if Holds(old(kids), d) then 1 else 0)
      ensures |kids| == |old(kids)| - (if Holds(old(kids), d) then 1 else 0)
    {
      WithoutOne(kids, d, maxIndex);
      var n := 0;
      while n < |kids| && kids[n].child != d
        invariant n <= |kids| && forall i | 0 <= i < n :: kids[i].child != d
      {
        n := n + 1;
      }
      if n < |kids| {
        assert Holds(kids, d) && n == KidAt(kids, d);
        kids := kids[..n] + kids[n + 1..];
        d.refs := d.refs - 1;
      }
    }

    // bus_add_child
    method AddChild(d: Device)
      requires Valid() && !Holds(kids, d)
      modifies this`kids, this`maxIndex, d`refs
      ensures Valid() && kids == [Kid(old(maxIndex), d)] + old(kids) && maxIndex == old(maxIndex) + 1
      ensures forall e :: Holds(kids, e) <==> Holds(old(kids), e) || e == d
      ensures d.refs == old(d.refs) + 1
    {
      WithNew(kids, d, maxIndex);
      kids := [Kid(maxIndex, d)] + kids;
      maxIndex := maxIndex + 1;
      d.refs := d.refs + 1;
    }
  }

  /** A device is among the children of its parent bus and of no other. */
  ghost predicate Linked(buses: set<Bus>, devices: set<Device>)
    reads buses, devices
  {
    && (forall b | b in buses :: b.Valid())
    && (forall b, d | b in buses && d in devices :: Holds(b.kids, d) <==> d.parentBus == b)
    && (forall d | d in devices && d.parentBus != null :: d.parentBus in buses)
  }

  // qdev_set_parent_bus, for a device that may already be on a bus, even on this one.
  method SetParentBus(d: Device, bus: Bus, ghost buses: set<Bus>, ghost devices: set<Device>)
    requires bus in buses && d in devices && Linked(buses, devices)
    modifies buses, d
    ensures Linked(buses, devices) && d.parentBus == bus
    // The bus holds the one reference; during the move the device keeps another.
    ensures d.refs == old(d.refs) + if old(d.parentBus) == null then 1 else 0
    ensures forall b | b in buses && b != bus :: b.kids == Without(old(b.kids), d) && b.maxIndex == old(b.maxIndex)
    ensures bus.kids == [Kid(old(bus.maxIndex), d)] + Without(old(bus.kids), d) && bus.maxIndex == old(bus.maxIndex) + 1
    ensures forall b | b in buses && old(b.Full()) :: b.Full()
    // Every child holds a reference on its bus.
    ensures forall b | b in buses :: b.refs - |b.kids| == old(b.refs - |b.kids|)
  {
    hide Numbered, Once, Holds, Without;
    var replugging := d.parentBus != null;
    if replugging {
      d.refs := d.refs + 1;
      d.parentBus.RemoveChild(d);
      d.parentBus.refs := d.parentBus.refs - 1;
    }
    d.parentBus := bus;
    bus.refs := bus.refs + 1;
    bus.AddChild(d);
    if replugging {
      d.refs := d.refs - 1;
    }
    forall b | b in buses
      ensures !Holds(old(b.kids), d) ==> Without(old(b.kids), d) == old(b.kids)
    {
      NotHeld(old(b.kids), d);
    }
  }

  lemma NotHeld(kids: seq<Kid>, d: Device)
    ensures !Holds(kids, d) ==> Without(kids, d) == kids
  {
  }
}
