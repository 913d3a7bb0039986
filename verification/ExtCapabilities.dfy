/** Rebuilding the PCI Express extended capability list.  Capabilities are added at the
    tail behind a stub at 0x100, which is either replaced by the device's own first
    capability or turned into an ID of zero at the end.

    Capability headers are dwords and their next pointers are masked to dwords, so
    extended config space is taken as dwords here and positions are dword numbers:
    0x100 is dword 64. */
module ExtCapabilities {

  const FIRST := 64
  const DWORDS := 1024
  const STUB_ID := 0xFFFF
  const ID_ARI := 0x0E
  const ID_SRIOV := 0x10

  /** A dword seen as a capability header; next is the dword number the next pointer
      names, reserved the two bits below it. */
  datatype Header = Header(id: nat, ver: nat, next: nat, reserved: nat)

  const ZERO := Header(0, 0, 0, 0)

  predicate Position(p: nat) { FIRST <= p < DWORDS }

  predicate Positions(path: seq<nat>) { forall i | 0 <= i < |path| :: Position(path[i]) }

  /** Following the next pointers from 0x100 visits exactly path, then ends. */
  ghost predicate IsChain(c: seq<Header>, path: seq<nat>)
    requires |c| == DWORDS
  {
    && path != [] && path[0] == FIRST && Positions(path)
    && forall i | 0 <= i < |path| :: c[path[i]].next == NextIn(path, i)
  }

  function NextIn(path: seq<nat>, i: nat): nat
    requires i < |path|
  {
    if i + 1 < |path| then path[i + 1] else 0
  }

  /** A list that ends visits no position twice. */
  lemma {:induction false} ChainDistinct(c: seq<Header>, path: seq<nat>, i: nat, j: nat)
    requires |c| == DWORDS && IsChain(c, path) && i < j < |path|
    ensures path[i] != path[j]
    decreases |path| - j
  {
    assert c[path[i]].next == NextIn(path, i) && c[path[j]].next == NextIn(path, j);
    if j + 1 < |path| {
      ChainDistinct(c, path, i + 1, j + 1);
    }
  }

  lemma ChainAppend(c: seq<Header>, chain: seq<nat>, offset: nat, h: Header)
    requires |c| == DWORDS && IsChain(c, chain) && Position(offset) && offset !in chain && h.next == 0
    ensures var tail := chain[|chain| - 1];
            IsChain(c[tail := c[tail].(next := offset)][offset := h], chain + [offset])
  {
    var last := |chain| - 1;
    var c' := c[chain[last] := c[chain[last]].(next := offset)][offset := h];
    var after := chain + [offset];
    forall j | 0 <= j < |after|
      ensures Position(after[j]) && c'[after[j]].next == NextIn(after, j)
    {
      if j < last {
        ChainDistinct(c, chain, j, last);
        assert c[chain[j]].next == NextIn(chain, j) == NextIn(after, j);
      }
    }
  }

  /** The start of the next capability above p, or the end of config space. */
  predicate IsNextAbove(path: seq<nat>, p: nat, n: nat) {
    && p < n <= DWORDS && (n == DWORDS || n in path)
    && (forall i | 0 <= i < |path| && path[i] > p :: n <= path[i])
  }

  function NextAbove(path: seq<nat>, p: nat): (n: nat)
    requires Positions(path) && Position(p)
    ensures IsNextAbove(path, p, n)
  {
    if path == [] then DWORDS
    else
      var n := NextAbove(path[1..], p);
      assert forall i | 0 < i < |path| :: path[i] == path[1..][i - 1];
      if p < path[0] < n then path[0] else n
  }

  lemma NextAboveOnly(path: seq<nat>, p: nat, n: nat)
    requires Positions(path) && Position(p) && IsNextAbove(path, p, n)
    ensures n == NextAbove(path, p)
  {
    hide NextAbove;
    assert IsNextAbove(path, p, NextAbove(path, p));
  }

  // The dwords vfio_ext_cap_max_size gives to the capability at p.
  predicate InWindow(path: seq<nat>, p: nat, k: nat)
    requires Positions(path) && Position(p)
  {
    p <= k < NextAbove(path, p)
  }

  /** The windows of two capabilities do not meet, and every window is inside the 4096 bytes. */
  lemma WindowsDisjoint(c: seq<Header>, path: seq<nat>, i: nat, j: nat)
    requires |c| == DWORDS && IsChain(c, path) && i < |path| && j < |path| && i != j
    ensures forall k: nat | InWindow(path, path[i], k) :: FIRST <= k < DWORDS && !InWindow(path, path[j], k)
  {
    if i < j {
      ChainDistinct(c, path, i, j);
    } else {
      ChainDistinct(c, path, j, i);
    }
    assert path[i] != path[j];
    assert IsNextAbove(path, path[i], NextAbove(path, path[i])) && IsNextAbove(path, path[j], NextAbove(path, path[j]));
    hide NextAbove, IsChain;
  }

  predicate Kept(id: nat) { id !in {0, ID_SRIOV, ID_ARI} }

  /** The list to show after the first n capabilities of path have been looked at: 0x100,
      then the kept positions behind it in their order. */
  function Emulated(c: seq<Header>, path: seq<nat>, n: nat): (list: seq<nat>)
    requires |c| == DWORDS && Positions(path) && n <= |path|
    ensures list != [] && list[0] == FIRST
  {
    if n <= 1 then [FIRST]
    else Emulated(c, path, n - 1) + if Kept(c[path[n - 1]].id) then [path[n - 1]] else []
  }

  lemma {:induction false} EmulatedMembers(c: seq<Header>, path: seq<nat>, n: nat)
    requires |c| == DWORDS && Positions(path) && n <= |path|
    ensures forall p :: p in Emulated(c, path, n) <==>
              p == FIRST || exists j :: 0 < j < n && path[j] == p && Kept(c[p].id)
  {
    if n > 1 {
      EmulatedMembers(c, path, n - 1);
    }
  }

  /** They are in the order of the path: two of them lie on it in the order in which they are listed. */
  lemma {:induction false} EmulatedInOrder(c: seq<Header>, path: seq<nat>, n: nat, i: nat, j: nat)
    returns (a: nat, b: nat)
    requires |c| == DWORDS && Positions(path) && 0 < n <= |path| && path[0] == FIRST && i < j < |Emulated(c, path, n)|
    ensures a < b < n && path[a] == Emulated(c, path, n)[i] && path[b] == Emulated(c, path, n)[j]
    decreases n
  {
    hide Kept, Position, Positions;
    var before := Emulated(c, path, n - 1);
    if j < |before| {
      a, b := EmulatedInOrder(c, path, n - 1, i, j);
    } else {
      assert Emulated(c, path, n) == before + [path[n - 1]];
      a := EmulatedAt(c, path, n - 1, i);
      b := n - 1;
    }
  }

  lemma EmulatedAt(c: seq<Header>, path: seq<nat>, n: nat, i: nat) returns (k: nat)
    requires |c| == DWORDS && Positions(path) && 0 < n <= |path| && path[0] == FIRST && i < |Emulated(c, path, n)|
    ensures k < n && path[k] == Emulated(c, path, n)[i]
  {
    hide Emulated, Kept;
    var p := Emulated(c, path, n)[i];
    EmulatedMembers(c, path, n);
    assert p in Emulated(c, path, n);
    if p == FIRST {
      k := 0;
    } else {
      k :| 0 < k < n && path[k] == p;
    }
  }

  lemma {:induction false} NothingKept(c: seq<Header>, path: seq<nat>, n: nat)
    requires |c| == DWORDS && Positions(path) && n <= |path| && forall j | 0 < j < n :: !Kept(c[path[j]].id)
    ensures Emulated(c, path, n) == [FIRST]
  {
    if n > 1 {
      NothingKept(c, path, n - 1);
    }
  }

  class ExtSpace {
    const config: array<Header>       // pdev.config, by dword
    const nextEmulated: array<bool>   // next pointer bits emulated, by dword
    var headEmulated: bool            // the whole dword at 0x100 emulated
    var headWritable: bool            // wmask of that dword

    constructor (config: array<Header>, nextEmulated: array<bool>)
      ensures this.config == config && this.nextEmulated == nextEmulated && !headEmulated && headWritable
    {
      this.config, this.nextEmulated, headEmulated, headWritable := config, nextEmulated, false, true;
    }

    predicate Valid() {
      config.Length == nextEmulated.Length == DWORDS
    }

    // vfio_ext_cap_max_size, in dwords, on the copy of the device's own list.
    method ExtCapMaxSize(cached: seq<Header>, pos: nat, ghost path: seq<nat>) returns (size: nat)
      requires |cached| == DWORDS && IsChain(cached, path) && Position(pos)
      ensures pos + size == NextAbove(path, pos)
    {
      var tmp, next := FIRST, DWORDS;
      ghost var i := 0;
      while tmp != 0
        invariant 0 <= i <= |path| && tmp == (if i < |path| then path[i] else 0)
        invariant pos < next <= DWORDS && (next == DWORDS || next in path)
        invariant forall j | 0 <= j < i && path[j] > pos :: next <= path[j]
        decreases |path| - i
      {
        if tmp > pos && tmp < next {
          next := tmp;
        }
        assert cached[tmp].next == NextIn(path, i);
        tmp := cached[tmp].next;
        i := i + 1;
      }
      NextAboveOnly(path, pos, next);
      return next - pos;
    }

    // pcie_add_capability: in place at 0x100, at the tail elsewhere.
    method PcieAddCapability(id: nat, ver: nat, offset: nat, size: nat, ghost chain: seq<nat>)
      requires Valid() && Position(offset) && 0 < size && offset + size <= DWORDS && IsChain(config[..], chain)
      requires offset == FIRST || offset !in chain
      modifies config
      ensures IsChain(config[..], if offset == FIRST then chain else chain + [offset])
      ensures config[offset].id == id && config[offset].ver == ver
      ensures forall d | 0 <= d < DWORDS && d != offset ::
                config[d] == old(config[d]).(next := config[d].next)
      ensures config[offset].reserved == if offset == FIRST then old(config[FIRST]).reserved else 0
    {
      if offset == FIRST {
        config[FIRST] := config[FIRST].(id := id, ver := ver);
      } else {
        var prev := Tail(chain);
        ChainAppend(config[..], chain, offset, Header(id, ver, 0, 0));
        config[prev] := config[prev].(next := offset);
        config[offset] := Header(id, ver, 0, 0);
      }
    }

    // pcie_find_capability_list for an absent ID: the last position of the list.
    method Tail(ghost chain: seq<nat>) returns (prev: nat)
      requires Valid() && IsChain(config[..], chain)
      ensures prev == chain[|chain| - 1]
    {
      prev := FIRST;
      ghost var i := 0;
      while config[prev].next != 0
        invariant 0 <= i < |chain| && prev == chain[i]
        decreases |chain| - i
      {
        assert config[prev].next == NextIn(chain, i);
        prev := config[prev].next;
        i := i + 1;
      }
      assert config[prev].next == NextIn(chain, i);
    }

    // vfio_add_ext_cap
    method AddExtCap(express: bool, ghost path: seq<nat>, ghost physical: seq<Header>)
      requires Valid() && (config[FIRST] != ZERO ==> IsChain(config[..], path))
      // IDs and versions have been read from the device.
      requires |physical| == DWORDS
      requires forall d | 0 <= d < DWORDS :: physical[d].id == config[d].id && physical[d].ver == config[d].ver
      modifies this, config, nextEmulated
      ensures !express || old(config[FIRST]) == ZERO ==>
                config[..] == old(config[..]) && nextEmulated[..] == old(nextEmulated[..]) && unchanged(this)
      ensures express && old(config[FIRST]) != ZERO ==> Rebuilt(old(config[..]), config[..], path)
      ensures express && old(config[FIRST]) != ZERO ==> headEmulated && !headWritable
      ensures express && old(config[FIRST]) != ZERO ==> forall i | 0 <= i < |path| :: nextEmulated[path[i]]
      ensures express && old(config[FIRST]) != ZERO ==>
                Shown(old(config[..]), GuestView(config[..], headEmulated, nextEmulated[..], physical), path)
    {
      if !express || config[FIRST] == ZERO {
        return;
      }
      hide Partial, Rebuilt, Emulated, Shown, GuestView;
      var cached := config[..];
      Seeded(cached, path);
      config[FIRST] := Header(STUB_ID, 0, 0, 0);
      assert config[..] == cached[FIRST := Header(STUB_ID, 0, 0, 0)];
      headWritable := false;
      headEmulated := true;
      var next := FIRST;
      ghost var i := 0;
      while next != 0
        invariant 0 <= i <= |path| && next == (if i < |path| then path[i] else 0)
        invariant Partial(cached, config[..], path, i)
        invariant headEmulated && !headWritable && forall j | 0 <= j < i :: nextEmulated[path[j]]
        decreases |path| - i
      {
        assert cached[next].next == NextIn(path, i);
        AddOne(cached, next, path, i);
        next := cached[next].next;
        i := i + 1;
      }
      Finished(cached, config[..], path);
      ghost var before := config[..];
      if config[FIRST].id == STUB_ID {
        config[FIRST] := config[FIRST].(id := 0);
      }
      assert config[..] == WithoutStub(before);
      GuestFollowsEmulated(cached, config[..], nextEmulated[..], physical, path);
    }

    // One round of the loop in vfio_add_ext_cap.
    method AddOne(cached: seq<Header>, next: nat, ghost path: seq<nat>, ghost i: nat)
      requires Valid() && |cached| == DWORDS && IsChain(cached, path) && i < |path| && next == path[i]
      requires Partial(cached, config[..], path, i)
      modifies config, nextEmulated
      ensures Partial(cached, config[..], path, i + 1)
      ensures nextEmulated[next] && forall d | 0 <= d < DWORDS && d != next :: nextEmulated[d] == old(nextEmulated[d])
    {
      hide Emulated, NextAbove;
      EmulatedStep(cached, path, i);
      var header := cached[next];
      var size := ExtCapMaxSize(cached, next, path);
      nextEmulated[next] := true;
      if header.id != 0 && header.id != ID_SRIOV && header.id != ID_ARI {
        PcieAddCapability(header.id, header.ver, next, size, Emulated(cached, path, i));
      }
    }
  }

  /** The list after the first i capabilities of the device have been looked at. */
  ghost predicate Partial(device: seq<Header>, c: seq<Header>, path: seq<nat>, i: nat)
    requires |device| == |c| == DWORDS && IsChain(device, path) && i <= |path|
  {
    && IsChain(c, Emulated(device, path, i))
    && (forall j | 0 <= j < i && Kept(device[path[j]].id) ::
          c[path[j]].id == device[path[j]].id && c[path[j]].ver == device[path[j]].ver)
    && c[FIRST].reserved == 0
    && (i == 0 || !Kept(device[FIRST].id) ==> c[FIRST].id == STUB_ID && c[FIRST].ver == 0)
  }

  lemma Seeded(device: seq<Header>, path: seq<nat>)
    requires |device| == DWORDS && IsChain(device, path)
    ensures Partial(device, device[FIRST := Header(STUB_ID, 0, 0, 0)], path, 0)
  {
    assert NextIn([FIRST], 0) == 0;
  }

  // What vfio_add_ext_cap does last.
  function WithoutStub(c: seq<Header>): seq<Header>
    requires |c| == DWORDS
  {
    if c[FIRST].id == STUB_ID then c[FIRST := c[FIRST].(id := 0)] else c
  }

  lemma Finished(device: seq<Header>, c: seq<Header>, path: seq<nat>)
    requires |device| == |c| == DWORDS && IsChain(device, path) && Partial(device, c, path, |path|)
    ensures Rebuilt(device, WithoutStub(c), path)
  {
    if forall p | p in path :: !Kept(device[p].id) {
      NothingKept(device, path, |path|);
      assert path[0] in path;
      assert c[FIRST].next == NextIn([FIRST], 0);
    }
    assert Kept(device[path[0]].id) ==> c[FIRST].id == device[FIRST].id;
  }

  lemma EmulatedStep(c: seq<Header>, path: seq<nat>, i: nat)
    requires |c| == DWORDS && IsChain(c, path) && i < |path|
    ensures Emulated(c, path, i + 1) ==
              Emulated(c, path, i) + if i > 0 && Kept(c[path[i]].id) then [path[i]] else []
    ensures i > 0 ==> path[i] != FIRST && path[i] !in Emulated(c, path, i)
    ensures forall j | 0 <= j < i :: path[j] != path[i]
  {
    forall j | 0 <= j < i ensures path[j] != path[i] {
      ChainDistinct(c, path, j, i);
    }
    EmulatedMembers(c, path, i);
  }

  /** What the rebuilt list is, given the device's own. */
  ghost predicate Rebuilt(device: seq<Header>, c: seq<Header>, path: seq<nat>)
    requires |device| == |c| == DWORDS && IsChain(device, path)
  {
    && IsChain(c, Emulated(device, path, |path|))
    && (forall p | p in path && p != FIRST && Kept(device[p].id) ::
          c[p].id == device[p].id && c[p].ver == device[p].ver)
    && c[FIRST].id == (if Kept(device[FIRST].id) && device[FIRST].id != STUB_ID then device[FIRST].id else 0)
    && (if Kept(device[FIRST].id) then c[FIRST].ver == device[FIRST].ver else c[FIRST].ver == 0)
    && c[FIRST].reserved == 0
    && ((forall p | p in path :: !Kept(device[p].id)) ==> c[FIRST] == ZERO)
  }

  /** What the guest reads: the whole dword at 0x100 if it is emulated, elsewhere the next pointers where they are. */
  function GuestView(c: seq<Header>, headEmulated: bool, nextEmulated: seq<bool>,
                     physical: seq<Header>): (view: seq<Header>)
    requires |c| == |nextEmulated| == |physical| == DWORDS
    ensures |view| == DWORDS
    ensures forall d | 0 <= d < DWORDS :: view[d] ==
              if d == FIRST && headEmulated then c[d]
              else if nextEmulated[d] then physical[d].(next := c[d].next)
              else physical[d]
  {
    seq(DWORDS, d requires 0 <= d < DWORDS =>
      if d == FIRST && headEmulated then c[d]
      else if nextEmulated[d] then physical[d].(next := c[d].next)
      else physical[d])
  }

  /**
   * What the guest finds: 0x100 and then the kept capabilities in their order, each with its own ID and version.
   * A dropped head reads as ID 0, the marker does not show, and if nothing is kept the list is absent.
   */
  ghost predicate Shown(device: seq<Header>, view: seq<Header>, path: seq<nat>)
    requires |device| == |view| == DWORDS && IsChain(device, path)
  {
    && IsChain(view, Emulated(device, path, |path|))
    && (forall p | p in Emulated(device, path, |path|) && p != FIRST ::
          Kept(device[p].id) && view[p].id == device[p].id && view[p].ver == device[p].ver)
    && view[FIRST].id == (if Kept(device[FIRST].id) && device[FIRST].id != STUB_ID then device[FIRST].id else 0)
    && view[FIRST].ver == (if Kept(device[FIRST].id) then device[FIRST].ver else 0)
    && view[FIRST].id != STUB_ID
    && ((forall p | p in path :: !Kept(device[p].id)) ==> view[FIRST] == ZERO)
  }

  /** The guest follows exactly the rebuilt list, whatever the device's own pointers are. */
  lemma GuestFollowsEmulated(device: seq<Header>, c: seq<Header>, nextEmulated: seq<bool>, physical: seq<Header>,
                             path: seq<nat>)
    requires |device| == |c| == |nextEmulated| == |physical| == DWORDS
    requires IsChain(device, path) && Rebuilt(device, c, path) && forall i | 0 <= i < |path| :: nextEmulated[path[i]]
    requires forall p | p in path :: physical[p].id == device[p].id && physical[p].ver == device[p].ver
    ensures Shown(device, GuestView(c, true, nextEmulated, physical), path)
  {
    var list := Emulated(device, path, |path|);
    EmulatedMembers(device, path, |path|);
    forall i | 0 <= i < |list|
      ensures GuestView(c, true, nextEmulated, physical)[list[i]].next == NextIn(list, i)
    {
      assert list[i] in list;
      assert nextEmulated[list[i]] by {
        if list[i] != FIRST {
          var j :| 0 < j < |path| && path[j] == list[i];
        } else {
          assert path[0] == FIRST;
        }
      }
    }
    hide Emulated;
  }
}
