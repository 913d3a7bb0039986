/** Resetting a bus through VFIO: every device that is quiesced beforehand is brought back afterwards. */
module HotReset {

  class Device {
    const name: string
    const isPci: bool
    var needsReset: bool

    constructor (name: string, isPci: bool)
      ensures this.name == name && this.isPci == isPci && needsReset
    {
      this.name, this.isPci, this.needsReset := name, isPci, true;
    }
  }

  datatype Group = Group(id: int, fd: int, devices: seq<Device>)

  // One entry of the kernel's answer to "which devices does a reset of this one affect".
  datatype Dependent = Dependent(group: int, segment: nat, bus: nat, devfn: nat) {
    predicate InRange() { segment < 0x1_0000 && bus < 0x100 && devfn < 0x100 }

    function Name(): string { HostName(segment, bus, devfn / 8, devfn % 8) }
  }

  datatype Answer<T> = Failed(errno: int) | Answered(value: T)

  // NO_SPACE is the expected answer to a request that carries no room for the devices.
  const NO_SPACE := 28
  const NOT_PERMITTED := 1
  const INVALID := 22

  function HexDigit(n: nat): char
    requires n < 16
  {
    "0123456789abcdef"[n]
  }

  // %0<width>x of a number that fits.
  function Hex(n: nat, width: nat): string
    decreases width
  {
    if width == 0 then "" else Hex(n / 16, width - 1) + [HexDigit(n % 16)]
  }

  function Pow16(width: nat): nat {
    if width == 0 then 1 else 16 * Pow16(width - 1)
  }

  function HostName(domain: nat, bus: nat, slot: nat, fn: nat): string {
    Hex(domain, 4) + ":" + Hex(bus, 2) + ":" + Hex(slot, 2) + "." + Hex(fn, 1)
  }

  lemma {:induction false} HexLength(n: nat, width: nat)
    ensures |Hex(n, width)| == width
    decreases width
  {
    if width > 0 {
      HexLength(n / 16, width - 1);
    }
  }

  lemma HexDigitInjective(m: nat, n: nat)
    requires m < 16 && n < 16 && HexDigit(m) == HexDigit(n)
    ensures m == n
  {
  }

  lemma {:induction false} HexInjective(m: nat, n: nat, width: nat)
    requires m < Pow16(width) && n < Pow16(width) && Hex(m, width) == Hex(n, width)
    ensures m == n
    decreases width
  {
    hide HexDigit;
    if width > 0 {
      HexLength(m / 16, width - 1);
      HexLength(n / 16, width - 1);
      assert Hex(m, width)[..width - 1] == Hex(m / 16, width - 1);
      assert Hex(n, width)[..width - 1] == Hex(n / 16, width - 1);
      assert HexDigit(m % 16) == Hex(m, width)[width - 1] == Hex(n, width)[width - 1] == HexDigit(n % 16);
      HexDigitInjective(m % 16, n % 16);
      HexInjective(m / 16, n / 16, width - 1);
    }
  }

  /** Two different devices of a machine never share a host name. */
  lemma NamesIdentify(a: Dependent, b: Dependent)
    requires a.InRange() && b.InRange() && a.Name() == b.Name()
    ensures a.segment == b.segment && a.bus == b.bus && a.devfn == b.devfn
  {
    NameParts(a);
    NameParts(b);
    hide Hex, HostName;
    assert Pow16(1) == 16 && Pow16(2) == 0x100 && Pow16(4) == 0x1_0000;
    HexInjective(a.segment, b.segment, 4);
    HexInjective(a.bus, b.bus, 2);
    HexInjective(a.devfn / 8, b.devfn / 8, 2);
    HexInjective(a.devfn % 8, b.devfn % 8, 1);
  }

  lemma NameParts(a: Dependent)
    ensures var n := a.Name();
            && |n| == 12 && n[..4] == Hex(a.segment, 4) && n[5..7] == Hex(a.bus, 2)
            && n[8..10] == Hex(a.devfn / 8, 2) && n[11..] == Hex(a.devfn % 8, 1)
  {
    hide Hex;
    HexLength(a.segment, 4);
    HexLength(a.bus, 2);
    HexLength(a.devfn / 8, 2);
    HexLength(a.devfn % 8, 1);
    Parts(Hex(a.segment, 4), Hex(a.bus, 2), Hex(a.devfn / 8, 2), Hex(a.devfn % 8, 1));
  }

  lemma Parts(a: string, b: string, c: string, d: string)
    requires |a| == 4 && |b| == 2 && |c| == 2 && |d| == 1
    ensures var n := a + ":" + b + ":" + c + "." + d;
            |n| == 12 && n[..4] == a && n[5..7] == b && n[8..10] == c && n[11..] == d
  {
  }

  // What the reset finds out about one dependent device.
  datatype Finding = Self | Unowned | Unused | InUse(device: Device)

  // The first group with this id; |groups| when none is owned.
  function GroupIndex(groups: seq<Group>, id: int): (n: nat)
    ensures n <= |groups|
    ensures n < |groups| ==> groups[n].id == id
    ensures forall i | 0 <= i < n :: groups[i].id != id
  {
    if groups == [] || groups[0].id == id then 0 else 1 + GroupIndex(groups[1..], id)
  }

  function DeviceIndex(devices: seq<Device>, name: string): (n: nat)
    ensures n <= |devices|
    ensures n < |devices| ==> devices[n].isPci && devices[n].name == name
    ensures forall i | 0 <= i < n :: !(devices[i].isPci && devices[i].name == name)
  {
    if devices == [] || (devices[0].isPci && devices[0].name == name) then 0 else 1 + DeviceIndex(devices[1..], name)
  }

  function Find(groups: seq<Group>, self: Device, d: Dependent): Finding {
    if d.Name() == self.name then Self else
      var g := GroupIndex(groups, d.group);
      if g == |groups| then Unowned else
        var k := DeviceIndex(groups[g].devices, d.Name());
        if k == |groups[g].devices| then Unused else InUse(groups[g].devices[k])
  }

  ghost predicate IsFirstGroup(groups: seq<Group>, id: int, g: int) {
    0 <= g < |groups| && groups[g].id == id && forall i | 0 <= i < g :: groups[i].id != id
  }

  ghost predicate IsFirstDevice(devices: seq<Device>, name: string, k: int) {
    && 0 <= k < |devices| && devices[k].isPci && devices[k].name == name
    && forall i | 0 <= i < k :: !(devices[i].isPci && devices[i].name == name)
  }

  ghost predicate GroupOwned(groups: seq<Group>, id: int) {
    exists g :: 0 <= g < |groups| && groups[g].id == id
  }

  // The first group with the id has x as its first PCI device of the name.
  ghost predicate Uses(groups: seq<Group>, id: int, name: string, x: Device) {
    exists g, k :: IsFirstGroup(groups, id, g) && IsFirstDevice(groups[g].devices, name, k) && groups[g].devices[k] == x
  }

  /**
   * What each finding means. The device itself goes by its name. A group that is nowhere in the list is not owned.
   * Otherwise the first PCI device of that name in the first such group is the user, and without one there is none.
   */
  lemma FindIs(groups: seq<Group>, self: Device, d: Dependent)
    ensures Find(groups, self, d) == Self <==> d.Name() == self.name
    ensures Find(groups, self, d) == Unowned <==> d.Name() != self.name && !GroupOwned(groups, d.group)
    ensures Find(groups, self, d) == Unused
       <==> d.Name() != self.name && GroupOwned(groups, d.group) && forall x :: !Uses(groups, d.group, d.Name(), x)
    ensures forall x ::
              Find(groups, self, d) == InUse(x) <==> d.Name() != self.name && Uses(groups, d.group, d.Name(), x)
  {
    hide HostName, GroupIndex, DeviceIndex, Uses, GroupOwned;
    OwnedByIndex(groups, d.group);
    var g := GroupIndex(groups, d.group);
    forall x
      ensures Uses(groups, d.group, d.Name(), x)
         <==> g < |groups| && IsUser(groups[g].devices, d.Name(), x)
    {
      UsesByIndex(groups, d.group, d.Name(), x);
    }
    if g < |groups| && DeviceIndex(groups[g].devices, d.Name()) < |groups[g].devices| {
      assert IsUser(groups[g].devices, d.Name(), groups[g].devices[DeviceIndex(groups[g].devices, d.Name())]);
    }
  }

  predicate IsUser(devices: seq<Device>, name: string, x: Device) {
    var k := DeviceIndex(devices, name);
    k < |devices| && devices[k] == x
  }

  lemma OwnedByIndex(groups: seq<Group>, id: int)
    ensures GroupOwned(groups, id) <==> GroupIndex(groups, id) < |groups|
  {
    hide GroupIndex;
  }

  lemma UsesByIndex(groups: seq<Group>, id: int, name: string, x: Device)
    ensures Uses(groups, id, name, x)
       <==> var g := GroupIndex(groups, id);
            g < |groups| && IsUser(groups[g].devices, name, x)
  {
    hide GroupIndex, DeviceIndex;
    var g := GroupIndex(groups, id);
    assert forall h :: IsFirstGroup(groups, id, h) <==> h == g < |groups|;
    if g < |groups| {
      var k := DeviceIndex(groups[g].devices, name);
      assert forall l :: IsFirstDevice(groups[g].devices, name, l) <==> l == k < |groups[g].devices|;
    }
  }

  // The number of dependents before the first whose group is not owned.
  function OwnedPrefix(groups: seq<Group>, self: Device, ds: seq<Dependent>): nat {
    if ds == [] || Find(groups, self, ds[0]) == Unowned then 0 else 1 + OwnedPrefix(groups, self, ds[1..])
  }

  ghost predicate Accessible(groups: seq<Group>, self: Device, d: Dependent) {
    d.Name() == self.name || GroupOwned(groups, d.group)
  }

  lemma {:induction false} OwnedPrefixIs(groups: seq<Group>, self: Device, ds: seq<Dependent>)
    ensures var n := OwnedPrefix(groups, self, ds);
            && n <= |ds|
            && (n < |ds| ==> Find(groups, self, ds[n]) == Unowned)
            && (forall i | 0 <= i < n :: Find(groups, self, ds[i]) != Unowned)
  {
    hide Find;
    if ds != [] && Find(groups, self, ds[0]) != Unowned {
      OwnedPrefixIs(groups, self, ds[1..]);
      assert forall i | 1 <= i < |ds| :: ds[i] == ds[1..][i - 1];
    }
  }

  /** In terms of group ids: a dependent of an owned group is never in the way. */
  lemma OwnedPrefixOnIds(groups: seq<Group>, self: Device, ds: seq<Dependent>)
    ensures var n := OwnedPrefix(groups, self, ds);
            && n <= |ds|
            && (n < |ds| ==> !Accessible(groups, self, ds[n]))
            && (forall i | 0 <= i < n :: Accessible(groups, self, ds[i]))
  {
    OwnedPrefixIs(groups, self, ds);
    forall i | 0 <= i < |ds|
      ensures Accessible(groups, self, ds[i]) <==> Find(groups, self, ds[i]) != Unowned
    {
      FindIs(groups, self, ds[i]);
      hide Find, GroupOwned, Uses;
    }
    hide Find, OwnedPrefix, Accessible;
  }

  function Owned(groups: seq<Group>, self: Device, ds: seq<Dependent>): seq<Dependent> {
    OwnedPrefixIs(groups, self, ds);
    ds[..OwnedPrefix(groups, self, ds)]
  }

  // The devices in use among the dependents, in the order the kernel lists them.
  function Users(groups: seq<Group>, self: Device, ds: seq<Dependent>): seq<Device> {
    if ds == [] then [] else
      var n := |ds| - 1;
      Users(groups, self, ds[..n]) + match Find(groups, self, ds[n]) case InUse(d) => [d] case _ => []
  }

  lemma NoUsers(groups: seq<Group>, self: Device, ds: seq<Dependent>)
    ensures Users(groups, self, ds[..0]) == []
  {
  }

  lemma UsersStep(groups: seq<Group>, self: Device, ds: seq<Dependent>, i: nat)
    requires i < |ds|
    ensures Users(groups, self, ds[..i + 1])
         == Users(groups, self, ds[..i]) + match Find(groups, self, ds[i]) case InUse(d) => [d] case _ => []
  {
    hide Find;
    assert ds[..i + 1][..i] == ds[..i];
  }

  ghost predicate SameAddress(a: Dependent, b: Dependent) {
    a.segment == b.segment && a.bus == b.bus && a.devfn == b.devfn
  }

  ghost predicate Distinct(ds: seq<Dependent>) {
    && (forall i | 0 <= i < |ds| :: ds[i].InRange())
    && (forall i, j | 0 <= i < j < |ds| :: !SameAddress(ds[i], ds[j]))
  }

  ghost predicate NoRepeat(s: seq<Device>) {
    forall i, j | 0 <= i < j < |s| :: s[i] != s[j]
  }

  lemma FoundInUse(groups: seq<Group>, self: Device, d: Dependent)
    ensures var f := Find(groups, self, d); f.InUse? ==> f.device != self && f.device.name == d.Name()
  {
    hide HostName;
  }

  /** The users are exactly the devices found in use. */
  lemma {:induction false} UsersAre(groups: seq<Group>, self: Device, ds: seq<Dependent>, d: Device)
    ensures d in Users(groups, self, ds) <==> exists i :: 0 <= i < |ds| && Find(groups, self, ds[i]) == InUse(d)
  {
    hide Find;
    if ds != [] {
      var n := |ds| - 1;
      var rest := ds[..n];
      UsersAre(groups, self, rest, d);
      if i :| 0 <= i < |ds| && Find(groups, self, ds[i]) == InUse(d) {
        assert i < n ==> rest[i] == ds[i];
      }
      if i :| 0 <= i < n && Find(groups, self, rest[i]) == InUse(d) {
        assert rest[i] == ds[i];
      }
    }
  }

  lemma {:induction false} UsersNoRepeat(groups: seq<Group>, self: Device, ds: seq<Dependent>)
    requires Distinct(ds)
    ensures NoRepeat(Users(groups, self, ds))
  {
    hide Find, HostName;
    if ds != [] {
      var n := |ds| - 1;
      var rest := ds[..n];
      assert forall i | 0 <= i < n :: rest[i] == ds[i];
      UsersNoRepeat(groups, self, rest);
      match Find(groups, self, ds[n])
      case InUse(d) =>
        if d in Users(groups, self, rest) {
          UsersAre(groups, self, rest, d);
          var i :| 0 <= i < n && Find(groups, self, rest[i]) == InUse(d);
          FoundInUse(groups, self, rest[i]);
          FoundInUse(groups, self, ds[n]);
          NamesIdentify(ds[i], ds[n]);
          assert false;
        }
      case _ =>
    }
  }

  predicate AnyIn(ds: seq<Dependent>, id: int) {
    exists i :: 0 <= i < |ds| && ds[i].group == id
  }

  // The fds of the owned groups that hold a dependent device.
  function GroupFds(groups: seq<Group>, ds: seq<Dependent>): seq<int> {
    if groups == [] then [] else
      var n := |groups| - 1;
      GroupFds(groups[..n], ds) + if AnyIn(ds, groups[n].id) then [groups[n].fd] else []
  }

  /** One fd for each owned group with an affected device, and no other. */
  lemma {:induction false} GroupFdsCount(groups: seq<Group>, ds: seq<Dependent>)
    ensures |GroupFds(groups, ds)| == |set i | 0 <= i < |groups| && AnyIn(ds, groups[i].id)|
  {
    hide AnyIn;
    var all := set i | 0 <= i < |groups| && AnyIn(ds, groups[i].id);
    if groups == [] {
      assert all == {};
    } else {
      var n := |groups| - 1;
      var rest := groups[..n];
      GroupFdsCount(rest, ds);
      var before := set i | 0 <= i < |rest| && AnyIn(ds, rest[i].id);
      assert forall i | 0 <= i < n :: rest[i] == groups[i];
      assert all == before + (if AnyIn(ds, groups[n].id) then {n} else {});
    }
  }

  /** They are in list order. */
  lemma {:induction false} GroupFdsAre(groups: seq<Group>, ds: seq<Dependent>, i: nat)
    requires i < |groups| && AnyIn(ds, groups[i].id)
    ensures FdOf(groups, ds, i)
    decreases |groups|
  {
    hide AnyIn;
    var n := |groups| - 1;
    if i < n {
      assert groups[..n][i] == groups[i];
      GroupFdsAre(groups[..n], ds, i);
      assert groups[..n][..i] == groups[..i];
    }
  }

  // The fd of group i comes after those of the groups before it that are passed.
  ghost predicate FdOf(groups: seq<Group>, ds: seq<Dependent>, i: nat)
    requires i < |groups|
  {
    var at := |GroupFds(groups[..i], ds)|;
    at < |GroupFds(groups, ds)| && GroupFds(groups, ds)[at] == groups[i].fd
  }

  lemma {:induction false} FewerFds(groups: seq<Group>, ds: seq<Dependent>, k: nat)
    requires k < |groups|
    ensures |GroupFds(groups[..k], ds)| + (if AnyIn(ds, groups[k].id) then 1 else 0) <= |GroupFds(groups, ds)|
    decreases |groups|
  {
    var n := |groups| - 1;
    if k < n {
      FewerFds(groups[..n], ds, k);
      assert groups[..n][..k] == groups[..k];
    }
  }

  /** The last element first becomes the first element last. */
  function Rotated(s: seq<Device>): seq<Device> {
    if s == [] then [] else s[1..] + [s[0]]
  }

  lemma RotatedIsPermutation(s: seq<Device>)
    ensures multiset(Rotated(s)) == multiset(s)
  {
    if s != [] {
      assert s == [s[0]] + s[1..];
    }
  }

  datatype Verdict = Proceed | Refuse(errno: int)

  class Host {
    var groups: seq<Group>
    // Everything passed to vfio_pci_pre_reset and vfio_pci_post_reset, and the fd lists of the resets asked for.
    var prepared: seq<Device>
    var restored: seq<Device>
    var resets: seq<seq<int>>

    constructor (groups: seq<Group>)
      ensures this.groups == groups && prepared == [] && restored == [] && resets == []
    {
      this.groups, prepared, restored, resets := groups, [], [], [];
    }

    ghost function Devices(): set<Device>
      reads this
    {
      set g, i | 0 <= g < |groups| && 0 <= i < |groups[g].devices| :: groups[g].devices[i]
    }

    // QLIST_FOREACH over the group list.
    method FindGroup(id: int) returns (n: nat)
      ensures n == GroupIndex(groups, id)
    {
      n := 0;
      while n < |groups| && groups[n].id != id
        invariant n <= |groups| && GroupIndex(groups, id) == n + GroupIndex(groups[n..], id)
      {
        n := n + 1;
      }
    }

    method FindDevice(devices: seq<Device>, name: string) returns (n: nat)
      ensures n == DeviceIndex(devices, name)
    {
      n := 0;
      while n < |devices| && !(devices[n].isPci && devices[n].name == name)
        invariant n <= |devices| && DeviceIndex(devices, name) == n + DeviceIndex(devices[n..], name)
      {
        n := n + 1;
      }
    }

    method Lookup(vdev: Device, d: Dependent) returns (f: Finding)
      ensures f == Find(groups, vdev, d)
      ensures f.InUse? ==> f.device in Devices()
    {
      hide HostName;
      if d.Name() == vdev.name {
        return Self;
      }
      var g := FindGroup(d.group);
      if g == |groups| {
        return Unowned;
      }
      var k := FindDevice(groups[g].devices, d.Name());
      if k == |groups[g].devices| {
        return Unused;
      }
      f := InUse(groups[g].devices[k]);
    }

    /**
     * Walks the dependents up to the first that stops the reset, quiescing the devices in use.
     * The group check comes first, so a refusal may leave devices quiesced.
     */
    method Prepare(vdev: Device, single: bool, ds: seq<Dependent>) returns (verdict: Verdict, multi: bool)
      modifies this`prepared, Devices()
      ensures multi <==> |prepared| > |old(prepared)|
      ensures var k := OwnedPrefix(groups, vdev, ds);
              var used := Users(groups, vdev, Owned(groups, vdev, ds));
              && prepared == old(prepared) + (if single then [] else used)
              && (verdict == Refuse(INVALID) <==> single && used != [])
              && (verdict == Refuse(NOT_PERMITTED) <==> !(single && used != []) && k < |ds|)
              && (verdict == Proceed <==> !(single && used != []) && k == |ds|)
      ensures forall d <- Devices() :: d.needsReset == (old(d.needsReset) && d !in prepared[|old(prepared)|..])
    {
      hide Find, OwnedPrefix, Users;
      ghost var k := OwnedPrefix(groups, vdev, ds);
      OwnedPrefixIs(groups, vdev, ds);
      NoUsers(groups, vdev, ds);
      multi := false;
      for i := 0 to |ds|
        invariant i <= k
        invariant multi <==> |prepared| > |old(prepared)|
        invariant single ==> Users(groups, vdev, ds[..i]) == [] && prepared == old(prepared)
        invariant !single ==> prepared == old(prepared) + Users(groups, vdev, ds[..i])
        invariant forall d <- Devices() :: d.needsReset == (old(d.needsReset) && d !in prepared[|old(prepared)|..])
      {
        var f := Lookup(vdev, ds[i]);
        UsersStep(groups, vdev, ds, i);
        match f
        case Unowned =>
          return Refuse(NOT_PERMITTED), multi;
        case InUse(d) =>
          if single {
            assert ds[..k][..i + 1] == ds[..i + 1];
            UsersGrow(groups, vdev, ds[..k], i + 1);
            return Refuse(INVALID), multi;
          }
          prepared := prepared + [d];
          d.needsReset := false;
          multi := true;
        case _ =>
      }
      assert ds[..|ds|] == ds;
      return Proceed, multi;
    }

    // The mirror image of Prepare: stops at the same place and touches the same devices.
    method Restore(vdev: Device, ds: seq<Dependent>)
      modifies this`restored
      ensures restored == old(restored) + Users(groups, vdev, Owned(groups, vdev, ds))
    {
      hide Find, OwnedPrefix, Users;
      ghost var k := OwnedPrefix(groups, vdev, ds);
      OwnedPrefixIs(groups, vdev, ds);
      NoUsers(groups, vdev, ds);
      for i := 0 to |ds|
        invariant i <= k && restored == old(restored) + Users(groups, vdev, ds[..i])
      {
        var f := Lookup(vdev, ds[i]);
        UsersStep(groups, vdev, ds, i);
        match f
        case Unowned =>
          return;
        case InUse(d) =>
          restored := restored + [d];
        case _ =>
      }
    }

    method AnyDependent(ds: seq<Dependent>, id: int) returns (any: bool)
      ensures any == AnyIn(ds, id)
    {
      for i := 0 to |ds|
        invariant forall j | 0 <= j < i :: ds[j].group != id
      {
        if ds[i].group == id {
          return true;
        }
      }
      return false;
    }

    method CollectFds(ds: seq<Dependent>) returns (fds: array<int>)
      ensures fresh(fds) && fds[..] == GroupFds(groups, ds)
    {
      hide AnyIn;
      var count := 0;
      for g := 0 to |groups|
        invariant count == |GroupFds(groups[..g], ds)|
      {
        var any := AnyDependent(ds, groups[g].id);
        assert groups[..g + 1][..g] == groups[..g];
        if any {
          count := count + 1;
        }
      }
      assert groups[..|groups|] == groups;
      fds := new int[count];
      var n := 0;
      for g := 0 to |groups|
        invariant n <= fds.Length && fds[..n] == GroupFds(groups[..g], ds)
      {
        var any := AnyDependent(ds, groups[g].id);
        assert groups[..g + 1][..g] == groups[..g];
        if any {
          FewerFds(groups, ds, g);
          fds[n] := groups[g].fd;
          n := n + 1;
        }
      }
    }

    // From the check of the groups to the end of the loop that brings the users back.
    method ResetUsers(vdev: Device, single: bool, ds: seq<Dependent>, outcome: Answer<()>) returns (ret: Answer<()>)
      modifies this`prepared, this`restored, this`resets, Devices()
      ensures var used := if single then [] else Users(groups, vdev, Owned(groups, vdev, ds));
              prepared == old(prepared) + used && restored == old(restored) + used
      ensures forall d <- Devices() :: d.needsReset == (old(d.needsReset) && d !in prepared[|old(prepared)|..])
      ensures resets == old(resets) + if AllSet(groups, vdev, single, ds) then [GroupFds(groups, ds)] else []
      ensures ret == if AllSet(groups, vdev, single, ds) then outcome else Failed(Objection(groups, vdev, single, ds))
    {
      hide Find;
      var verdict, multi := Prepare(vdev, single, ds);
      ghost var k := OwnedPrefix(groups, vdev, ds);
      OwnedPrefixIs(groups, vdev, ds);
      assert k == |ds| ==> ds[..k] == ds;
      match verdict
      case Refuse(errno) =>
        if errno == NOT_PERMITTED {
          Restore(vdev, ds);
        }
        return Failed(errno);
      case Proceed =>
        if !single && !multi {
          return Failed(INVALID);
        }
        var fds := CollectFds(ds);
        resets := resets + [fds[..]];
        Restore(vdev, ds);
        return outcome;
    }

    /** vfio_pci_hot_reset, for any answers of the kernel. */
    method Reset(vdev: Device, single: bool, probe: Answer<()>, info: Answer<seq<Dependent>>,
                 outcome: Answer<()>) returns (ret: Answer<()>)
      modifies this`prepared, this`restored, this`resets, vdev, Devices()
      // Whatever happens, the devices quiesced are exactly those brought back, the reset one last.
      ensures prepared == old(prepared) + Quiesced(groups, vdev, single, probe, info)
      ensures restored == old(restored) + Rotated(Quiesced(groups, vdev, single, probe, info))
      ensures !single ==> restored[|restored| - 1] == vdev
      ensures !vdev.needsReset
      ensures forall d <- Devices() ::
                d.needsReset == (old(d.needsReset) && d != vdev && d !in Quiesced(groups, vdev, single, probe, info))
      // The bus is reset exactly when every group is owned and, as single tells, others do or do not use it.
      ensures resets
           == old(resets) + if Resets(groups, vdev, single, probe, info) then [GroupFds(groups, info.value)] else []
      ensures Resets(groups, vdev, single, probe, info) ==> ret == outcome
      ensures ProbeFailed(probe) ==> ret == probe
      ensures !ProbeFailed(probe) && info.Failed? ==> ret == Failed(info.errno)
      ensures !ProbeFailed(probe) && info.Answered? && !Resets(groups, vdev, single, probe, info) ==>
                ret == Failed(Objection(groups, vdev, single, info.value))
    {
      hide Users, OwnedPrefix, GroupFds, AllSet, Objection;
      if !single {
        prepared := prepared + [vdev];
      }
      vdev.needsReset := false;
      if ProbeFailed(probe) {
        ret := probe;
      } else if info.Failed? {
        ret := Failed(info.errno);
      } else {
        ret := ResetUsers(vdev, single, info.value, outcome);
      }
      if !single {
        restored := restored + [vdev];
      }
    }
  }

  predicate ProbeFailed(probe: Answer<()>) {
    probe.Failed? && probe.errno != NO_SPACE
  }

  ghost predicate AllSet(groups: seq<Group>, vdev: Device, single: bool, ds: seq<Dependent>) {
    OwnedPrefix(groups, vdev, ds) == |ds| && (single <==> Users(groups, vdev, ds) == [])
  }

  // Not owning a group counts only when no user stopped a single reset before it.
  ghost function Objection(groups: seq<Group>, vdev: Device, single: bool, ds: seq<Dependent>): int {
    if OwnedPrefix(groups, vdev, ds) < |ds| && !(single && Users(groups, vdev, Owned(groups, vdev, ds)) != [])
    then NOT_PERMITTED else INVALID
  }

  ghost predicate Resets(groups: seq<Group>, vdev: Device, single: bool, probe: Answer<()>,
                         info: Answer<seq<Dependent>>) {
    !ProbeFailed(probe) && info.Answered? && AllSet(groups, vdev, single, info.value)
  }

  /** When the bus is reset, in terms of names and group ids. */
  lemma ResetsExactly(groups: seq<Group>, vdev: Device, single: bool, probe: Answer<()>,
                      info: Answer<seq<Dependent>>)
    requires !ProbeFailed(probe) && info.Answered?
    ensures Resets(groups, vdev, single, probe, info)
       <==> && (forall i | 0 <= i < |info.value| :: Accessible(groups, vdev, info.value[i]))
            && (single <==> forall i | 0 <= i < |info.value| :: !Find(groups, vdev, info.value[i]).InUse?)
  {
    hide Find, Accessible, OwnedPrefix, Users;
    OwnedPrefixOnIds(groups, vdev, info.value);
    NoUserFound(groups, vdev, info.value);
  }

  lemma {:induction false} NoUserFound(groups: seq<Group>, vdev: Device, ds: seq<Dependent>)
    ensures Users(groups, vdev, ds) == [] <==> forall i | 0 <= i < |ds| :: !Find(groups, vdev, ds[i]).InUse?
  {
    hide Find;
    if ds != [] {
      var n := |ds| - 1;
      NoUserFound(groups, vdev, ds[..n]);
      assert forall i | 0 <= i < n :: ds[..n][i] == ds[i];
    }
  }

  // The devices that one reset passes to vfio_pci_pre_reset.
  ghost function Quiesced(groups: seq<Group>, vdev: Device, single: bool, probe: Answer<()>,
                          info: Answer<seq<Dependent>>): seq<Device> {
    if single then []
    else if ProbeFailed(probe) || info.Failed? then [vdev]
    else [vdev] + Users(groups, vdev, Owned(groups, vdev, info.value))
  }

  /** Each device is quiesced once and brought back once. */
  lemma QuiescedOnce(groups: seq<Group>, vdev: Device, single: bool, probe: Answer<()>, info: Answer<seq<Dependent>>)
    requires info.Answered? ==> Distinct(info.value)
    ensures var q := Quiesced(groups, vdev, single, probe, info);
            NoRepeat(q) && NoRepeat(Rotated(q)) && multiset(Rotated(q)) == multiset(q)
  {
    hide Users, Find, OwnedPrefix;
    var q := Quiesced(groups, vdev, single, probe, info);
    if |q| > 1 {
      var ds := Owned(groups, vdev, info.value);
      OwnedPrefixIs(groups, vdev, info.value);
      DistinctPrefix(info.value, |ds|);
      UsersNoRepeat(groups, vdev, ds);
      SelfNotUser(groups, vdev, ds);
    }
    RotatedIsPermutation(q);
  }

  lemma DistinctPrefix(ds: seq<Dependent>, k: nat)
    requires k <= |ds| && Distinct(ds)
    ensures Distinct(ds[..k])
  {
    assert forall i | 0 <= i < k :: ds[..k][i] == ds[i];
  }

  lemma SelfNotUser(groups: seq<Group>, vdev: Device, ds: seq<Dependent>)
    ensures vdev !in Users(groups, vdev, ds)
  {
    hide Find;
    if vdev in Users(groups, vdev, ds) {
      UsersAre(groups, vdev, ds, vdev);
      var i :| 0 <= i < |ds| && Find(groups, vdev, ds[i]) == InUse(vdev);
      FoundInUse(groups, vdev, ds[i]);
    }
  }

  lemma {:induction false} UsersGrow(groups: seq<Group>, self: Device, ds: seq<Dependent>, k: nat)
    requires k <= |ds| && Users(groups, self, ds[..k]) != []
    ensures Users(groups, self, ds) != []
    decreases |ds|
  {
    hide Find;
    if k < |ds| {
      var n := |ds| - 1;
      assert ds[..n][..k] == ds[..k];
      UsersGrow(groups, self, ds[..n], k);
    } else {
      assert ds[..k] == ds;
    }
  }
}
