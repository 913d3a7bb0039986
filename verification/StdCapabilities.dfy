/** Rebuilding the standard capability list of an assigned device inside the cached
    config space.  Every capability is inserted at the head of the list, in an order that
    leaves the kept ones as the device has them. */
module StdCapabilities {
  import ByteBits
  import ConfigView

  type byte = n: int | 0 <= n < 256
  type offset = n: int | 0 <= n < 256

  const CAPABILITY_LIST := 0x34
  const STATUS := 0x06
  const CONFIG_SIZE := 256

  // What becomes of one capability: added, skipped without an error, or refused with one.
  datatype Fate = Kept | Skipped | Refused

  /** Following the next pointers of c from start visits exactly path, then ends. */
  ghost predicate IsChain(c: seq<nat>, start: nat, path: seq<offset>)
    requires |c| == CONFIG_SIZE
    decreases |path|
  {
    if path == [] then start == 0
    else start == path[0] && 0 < start < CONFIG_SIZE - 1 && IsChain(c, c[start + 1], path[1..])
  }

  /** The two-byte headers lie behind the fixed header and do not overlap. */
  predicate Spaced(path: seq<offset>) {
    && (forall i | 0 <= i < |path| :: 0x40 <= path[i] < CONFIG_SIZE - 1)
    && (forall i, j | 0 <= i < j < |path| :: Apart(path[i], path[j]))
  }

  predicate Apart(p: int, q: int) { p + 2 <= q || q + 2 <= p }

  /** The start of the next capability above p, or the end of config space. */
  predicate IsNextAbove(path: seq<offset>, p: offset, n: int) {
    && p < n <= CONFIG_SIZE && (n == CONFIG_SIZE || n in path)
    && (forall i | 0 <= i < |path| && path[i] > p :: n <= path[i])
  }

  function NextAbove(path: seq<offset>, p: offset): (n: int)
    ensures IsNextAbove(path, p, n)
  {
    if path == [] then CONFIG_SIZE
    else
      var n := NextAbove(path[1..], p);
      assert forall i | 0 < i < |path| :: path[i] == path[1..][i - 1];
      if p < path[0] < n then path[0] else n
  }

  // The bytes vfio_std_cap_max_size gives to the capability at p.
  predicate InWindow(path: seq<offset>, p: offset, k: int) {
    p <= k < NextAbove(path, p)
  }

  /** The windows of two capabilities do not meet, every window is inside config space
      and holds its capability's header. */
  lemma WindowsDisjoint(path: seq<offset>, i: nat, j: nat)
    requires Spaced(path) && i < |path| && j < |path| && i != j
    ensures forall k | InWindow(path, path[i], k) :: k < CONFIG_SIZE && !InWindow(path, path[j], k)
    ensures InWindow(path, path[i], path[i]) && InWindow(path, path[i], path[i] as int + 1)
  {
  }

  // The byte at k is in no window from path[i] on.
  predicate Outside(path: seq<offset>, i: nat, k: int) {
    forall j | i <= j < |path| :: !InWindow(path, path[j], k)
  }

  lemma OutsideOthers(path: seq<offset>, i: nat)
    requires Spaced(path) && i < |path|
    ensures forall k | Outside(path, i, k) :: Outside(path, i + 1, k) && !InWindow(path, path[i], k)
    ensures Outside(path, i + 1, path[i])
    ensures forall j | i < j < |path| ::
              !InWindow(path, path[i], path[j]) && !InWindow(path, path[i], path[j] as int + 1)
    ensures forall j | i <= j < |path| :: 0x40 <= path[j] < CONFIG_SIZE - 1
  {
    forall j | i < j < |path|
      ensures !InWindow(path, path[i], path[j]) && !InWindow(path, path[i], path[j] as int + 1)
      ensures !InWindow(path, path[j], path[i])
    {
      WindowsDisjoint(path, i, j);
      WindowsDisjoint(path, j, i);
    }
  }

  function Keep(path: seq<offset>, fates: seq<Fate>): seq<offset>
    requires |fates| == CONFIG_SIZE
  {
    if path == [] then []
    else (if fates[path[0]] == Kept then [path[0]] else []) + Keep(path[1..], fates)
  }

  /** The kept capabilities are exactly those of the path that are kept, none more often than there. */
  lemma {:induction false} KeepIsFilter(path: seq<offset>, fates: seq<Fate>)
    requires |fates| == CONFIG_SIZE
    ensures forall p :: p in Keep(path, fates) <==> p in path && fates[p] == Kept
    ensures multiset(Keep(path, fates)) <= multiset(path)
  {
    if path != [] {
      KeepIsFilter(path[1..], fates);
      assert forall p | p in path :: p == path[0] || p in path[1..];
      assert path == [path[0]] + path[1..];
    }
  }

  /** They are in the order of the path: two of them lie on it in the order in which they are listed. */
  lemma {:induction false} KeepInOrder(path: seq<offset>, fates: seq<Fate>, i: nat, j: nat) returns (a: nat, b: nat)
    requires |fates| == CONFIG_SIZE && i < j < |Keep(path, fates)|
    ensures a < b < |path| && path[a] == Keep(path, fates)[i] && path[b] == Keep(path, fates)[j]
    decreases |path|
  {
    var rest := Keep(path[1..], fates);
    if fates[path[0]] == Kept {
      assert Keep(path, fates) == [path[0]] + rest;
      if i == 0 {
        var k := KeptAt(path[1..], fates, j - 1);
        a, b := 0, k + 1;
      } else {
        a, b := KeepInOrder(path[1..], fates, i - 1, j - 1);
        a, b := a + 1, b + 1;
      }
    } else {
      a, b := KeepInOrder(path[1..], fates, i, j);
      a, b := a + 1, b + 1;
    }
  }

  lemma KeptAt(path: seq<offset>, fates: seq<Fate>, i: nat) returns (k: nat)
    requires |fates| == CONFIG_SIZE && i < |Keep(path, fates)|
    ensures k < |path| && path[k] == Keep(path, fates)[i]
  {
    hide Keep;
    KeptIn(path, fates);
    k :| 0 <= k < |path| && path[k] == Keep(path, fates)[i];
  }

  lemma KeptIn(path: seq<offset>, fates: seq<Fate>)
    requires |fates| == CONFIG_SIZE
    ensures forall i | 0 <= i < |Keep(path, fates)| :: exists j :: 0 <= j < |path| && path[j] == Keep(path, fates)[i]
  {
    KeepIsFilter(path, fates);
    forall i | 0 <= i < |Keep(path, fates)|
      ensures exists j :: 0 <= j < |path| && path[j] == Keep(path, fates)[i]
    {
      assert Keep(path, fates)[i] in Keep(path, fates);
    }
  }

  lemma {:induction false} KeepSpaced(path: seq<offset>, fates: seq<Fate>)
    requires |fates| == CONFIG_SIZE && Spaced(path)
    ensures Spaced(Keep(path, fates))
  {
    if path != [] {
      assert forall i | 0 < i < |path| :: path[i] == path[1..][i - 1];
      KeepSpaced(path[1..], fates);
      KeepIsFilter(path[1..], fates);
      assert forall q | q in path[1..] :: Apart(path[0], q);
      SpacedCons(path[0], Keep(path[1..], fates));
    }
  }

  lemma SpacedCons(p: offset, path: seq<offset>)
    requires 0x40 <= p < CONFIG_SIZE - 1 && Spaced(path) && forall i | 0 <= i < |path| :: Apart(p, path[i])
    ensures Spaced([p] + path)
  {
  }

  /** Changing bytes that are no header byte of the path leaves the chain as it is. */
  lemma {:induction false} ChainFrame(c: seq<nat>, c': seq<nat>, start: nat, path: seq<offset>)
    requires |c| == |c'| == CONFIG_SIZE && IsChain(c, start, path)
    requires forall i | 0 <= i < |path| && path[i] < CONFIG_SIZE - 1 :: c'[path[i] + 1] == c[path[i] + 1]
    ensures IsChain(c', start, path)
    decreases |path|
  {
    if path != [] {
      ChainFrame(c, c', c[start + 1], path[1..]);
    }
  }

  lemma ChainStep(c: seq<byte>, path: seq<offset>, i: nat)
    requires |c| == CONFIG_SIZE && i < |path| && IsChain(c, path[i], path[i..])
    ensures 0 < path[i] < CONFIG_SIZE - 1
    ensures c[path[i] + 1] == 0 <==> path[i + 1..] == []
    ensures c[path[i] + 1] != 0 ==>
              i + 1 < |path| && path[i + 1] == c[path[i] + 1] && IsChain(c, path[i + 1], path[i + 1..])
  {
    assert path[i..][1..] == path[i + 1..];
  }

  // What the guest reads of one byte.
  function GuestByte(emulated: byte, config: byte, physical: byte): nat {
    ConfigView.MergeByte(emulated as bv8, config as bv8, physical as bv8) as nat
  }

  lemma FullyEmulatedByte(config: byte, physical: byte)
    ensures GuestByte(0xff, config, physical) == config
  {
    FullMask(0xff);
    FullyMerged(0xff as bv8, config, physical as bv8);
    hide ConfigView.MergeByte;
  }

  lemma FullyMerged(emulated: bv8, config: byte, physical: bv8)
    requires emulated == 0xFF
    ensures ConfigView.MergeByte(emulated, config as bv8, physical) as nat == config
  {
    hide ConfigView.MergeByte;
    ConfigView.EmulatedByteReads(config as bv8, physical);
    ByteBits.RoundTrip(config);
  }

  lemma FullMask(b: byte)
    requires b == 0xff
    ensures b as bv8 == 0xFF
  {
  }

  function GuestView(emulated: seq<byte>, config: seq<byte>, physical: seq<byte>): (view: seq<nat>)
    requires |emulated| == |config| == |physical|
    ensures |view| == |config|
    ensures forall k | 0 <= k < |view| :: view[k] == GuestByte(emulated[k], config[k], physical[k])
  {
    seq(|config|, k requires 0 <= k < |config| => GuestByte(emulated[k], config[k], physical[k]))
  }

  /** With all list pointers emulated, the guest sees the list of the cached copy, whatever
      the device's own pointers are. */
  lemma GuestSeesChain(emulated: seq<byte>, config: seq<byte>, physical: seq<byte>, path: seq<offset>)
    requires |emulated| == |config| == |physical| == CONFIG_SIZE
    requires IsChain(config, config[CAPABILITY_LIST], path)
    requires emulated[CAPABILITY_LIST] == 0xff
    requires forall i | 0 <= i < |path| && path[i] < CONFIG_SIZE - 1 :: emulated[path[i] + 1] == 0xff
    ensures var view := GuestView(emulated, config, physical);
            IsChain(view, view[CAPABILITY_LIST], path)
  {
    hide GuestByte, GuestView;
    var view := GuestView(emulated, config, physical);
    FullyEmulatedByte(config[CAPABILITY_LIST], physical[CAPABILITY_LIST]);
    forall i | 0 <= i < |path| && path[i] < CONFIG_SIZE - 1
      ensures view[path[i] + 1] == config[path[i] + 1]
    {
      FullyEmulatedByte(config[path[i] + 1], physical[path[i] + 1]);
    }
    ChainFrame(config, view, config[CAPABILITY_LIST], path);
  }

  class CapSpace {
    const config: array<byte>    // pdev.config
    const emulated: array<byte>  // emulated_config_bits
    const fates: seq<Fate>       // by position, decided by the device and the machine

    constructor (config: array<byte>, emulated: array<byte>, fates: seq<Fate>)
      ensures this.config == config && this.emulated == emulated && this.fates == fates
    {
      this.config, this.emulated, this.fates := config, emulated, fates;
    }

    predicate Valid() {
      config.Length == emulated.Length == |fates| == CONFIG_SIZE && config != emulated
    }

    // vfio_std_cap_max_size; the list still is the device's own.
    method StdCapMaxSize(pos: offset, ghost path: seq<offset>) returns (size: nat)
      requires Valid() && IsChain(config[..], config[CAPABILITY_LIST], path) && Spaced(path) && pos in path
      ensures pos + size == NextAbove(path, pos)
    {
      var tmp: byte := config[CAPABILITY_LIST];
      var next := CONFIG_SIZE;
      ghost var i := 0;
      while tmp != 0
        invariant 0 <= i <= |path| && IsChain(config[..], tmp, path[i..])
        invariant pos < next <= CONFIG_SIZE && (next == CONFIG_SIZE || next in path)
        invariant forall j | 0 <= j < i && path[j] > pos :: next <= path[j]
        decreases |path| - i
      {
        if tmp > pos && tmp < next {
          next := tmp;
        }
        assert path[i..][1..] == path[i + 1..];
        tmp := config[tmp + 1];
        i := i + 1;
      }
      return next - pos;
    }

    // pci_add_capability2: insert at the head.
    method PciAddCapability(id: byte, pos: offset, ghost path: seq<offset>)
      requires Valid() && IsChain(config[..], config[CAPABILITY_LIST], path)
      requires 0x40 <= pos < CONFIG_SIZE - 1 && Spaced(path) && forall i | 0 <= i < |path| :: Apart(pos, path[i])
      modifies config
      ensures IsChain(config[..], config[CAPABILITY_LIST], [pos] + path)
      ensures config[pos] == id && config[CAPABILITY_LIST] == pos
      ensures forall k | 0 <= k < CONFIG_SIZE && k !in {pos, pos + 1, CAPABILITY_LIST, STATUS} ::
                config[k] == old(config[k])
      ensures config[STATUS] == WithCapListBit(old(config[STATUS]))
    {
      var head := config[CAPABILITY_LIST];
      config[pos] := id;
      config[pos + 1] := head;
      config[CAPABILITY_LIST] := pos;
      config[STATUS] := WithCapListBit(config[STATUS]);
      ChainFrame(old(config[..]), config[..], head, path);
      assert ([pos] + path)[1..] == path;
    }

    // The set-up of one capability's body: reads of the device and emulated fields,
    // all behind the header and inside the capability.
    method SetupBody(pos: offset, size: nat)
      requires Valid() && size >= 2 && pos + size <= CONFIG_SIZE
      modifies config, emulated
      ensures forall k | 0 <= k < CONFIG_SIZE && !(pos + 2 <= k < pos + size) ::
                config[k] == old(config[k]) && emulated[k] == old(emulated[k])
    {
      for k := pos + 2 to pos + size
        invariant forall k | 0 <= k < CONFIG_SIZE && !(pos + 2 <= k < pos + size) ::
                    config[k] == old(config[k]) && emulated[k] == old(emulated[k])
      {
        var b: byte, e: byte := *, *;
        config[k], emulated[k] := b, e;
      }
    }

    // vfio_add_std_cap for path[i], where path is the device's whole list.
    method AddStdCap(pos: offset, ghost path: seq<offset>, ghost i: nat) returns (ret: int)
      requires Valid() && Spaced(path) && i < |path| && pos == path[i]
      requires IsChain(config[..], config[CAPABILITY_LIST], path) && IsChain(config[..], pos, path[i..])
      modifies config, emulated
      ensures ret <= 0 && (ret == 0 <==> forall j | i <= j < |path| :: fates[path[j]] != Refused)
      ensures ret == 0 ==> IsChain(config[..], config[CAPABILITY_LIST], Keep(path[i..], fates))
      ensures ret == 0 ==> forall j | i <= j < |path| :: config[path[j]] == old(config[path[j]])
      ensures ret == 0 ==> emulated[CAPABILITY_LIST] == 0xff
      ensures ret == 0 ==> forall j | i <= j < |path| :: emulated[path[j] + 1] == 0xff
      ensures forall k | 0x40 <= k < CONFIG_SIZE && Outside(path, i, k) ::
                config[k] == old(config[k]) && emulated[k] == old(emulated[k])
      ensures HasCapList(old(config[STATUS])) ==> config[STATUS] == old(config[STATUS])
      ensures ret == 0 ==> emulated[STATUS] == WithCapListBit(old(emulated[STATUS]))
      decreases |path| - i
    {
      hide InWindow, NextAbove, IsNextAbove, Spaced, Outside, IsChain, Keep;
      ChainStep(config[..], path, i);
      var id := config[pos];
      var next := config[pos + 1];
      var size := StdCapMaxSize(pos, path);
      OutsideOthers(path, i);
      if next != 0 {
        ret := AddStdCap(next, path, i + 1);
        if ret != 0 {
          return;
        }
        assert config[pos] == id;
      } else {
        BeginRebuild(path[i + 1..]);
      }
      ret := InsertStdCap(id, pos, size, path, i);
    }

    // The rebuild starts from an empty, emulated list.
    method BeginRebuild(ghost path: seq<offset>)
      requires Valid() && path == []
      modifies config, emulated
      ensures IsChain(config[..], config[CAPABILITY_LIST], Keep(path, fates)) && emulated[CAPABILITY_LIST] == 0xff
      ensures forall k | 0x40 <= k < CONFIG_SIZE :: config[k] == old(config[k]) && emulated[k] == old(emulated[k])
      ensures config[STATUS] == old(config[STATUS]) && emulated[STATUS] == WithCapListBit(old(emulated[STATUS]))
    {
      config[CAPABILITY_LIST] := 0;
      emulated[CAPABILITY_LIST] := 0xff;
      emulated[STATUS] := WithCapListBit(emulated[STATUS]);
    }

    // The standard part of vfio_add_capabilities.
    method AddStdCapabilities(ghost path: seq<offset>, ghost physical: seq<byte>) returns (ret: int)
      requires Valid() && Spaced(path) && IsChain(config[..], config[CAPABILITY_LIST], path)
      requires |physical| == CONFIG_SIZE
      modifies config, emulated
      ensures old(!HasCapList(config[STATUS]) || config[CAPABILITY_LIST] == 0) ==>
                ret == 0 && config[..] == old(config[..]) && emulated[..] == old(emulated[..])
      ensures old(HasCapList(config[STATUS]) && config[CAPABILITY_LIST] != 0) ==>
                && (ret == 0 <==> forall p | p in path :: fates[p] != Refused)
                && (ret == 0 ==> IsChain(config[..], config[CAPABILITY_LIST], Keep(path, fates)))
                && (ret == 0 ==> var view := GuestView(emulated[..], config[..], physical);
                                 IsChain(view, view[CAPABILITY_LIST], Keep(path, fates)))
                && (ret == 0 ==> forall p | p in path :: config[p] == old(config[p]))
                // The status register still says that there is a list, and what the device says of it does not show.
                && config[STATUS] == old(config[STATUS])
                && (ret == 0 ==> HasCapList(emulated[STATUS]))
    {
      hide Spaced, NextAbove, InWindow, GuestView, GuestByte, Outside;
      if !HasCapList(config[STATUS]) || config[CAPABILITY_LIST] == 0 {
        return 0;
      }
      assert path[0..] == path;
      OutsideOthers(path, 0);
      ret := AddStdCap(config[CAPABILITY_LIST], path, 0);
      if ret == 0 {
        KeptIn(path, fates);
        GuestSeesChain(emulated[..], config[..], physical, Keep(path, fates));
      }
    }

    // What is left of vfio_add_std_cap after the capabilities behind this one are done.
    method InsertStdCap(id: byte, pos: offset, size: nat, ghost path: seq<offset>, ghost i: nat) returns (ret: int)
      requires Valid() && Spaced(path) && i < |path|
      requires pos == path[i] && 0x40 <= pos && pos + size == NextAbove(path, pos)
      requires IsChain(config[..], config[CAPABILITY_LIST], Keep(path[i + 1..], fates)) && config[pos] == id
      modifies config, emulated
      ensures ret <= 0 && (ret == 0 <==> fates[pos] != Refused)
      ensures ret == 0 ==>
                IsChain(config[..], config[CAPABILITY_LIST], Keep(path[i..], fates)) && emulated[pos + 1] == 0xff
      ensures config[pos] == id
      ensures forall k | 0x40 <= k < CONFIG_SIZE && !InWindow(path, pos, k) ::
                config[k] == old(config[k]) && emulated[k] == old(emulated[k])
      ensures emulated[CAPABILITY_LIST] == old(emulated[CAPABILITY_LIST])
      ensures emulated[STATUS] == old(emulated[STATUS])
      ensures HasCapList(old(config[STATUS])) ==> config[STATUS] == old(config[STATUS])
    {
      hide NextAbove, IsNextAbove, Keep, Spaced, Apart, IsChain;
      ghost var rest := Keep(path[i + 1..], fates);
      RestApart(path, i, fates);
      KeepStep(path, i, fates);
      emulated[pos + 1] := 0xff;
      SetupBody(pos, size);
      ChainFrame(old(config[..]), config[..], config[CAPABILITY_LIST], rest);
      match fates[pos] {
        case Kept =>
          PciAddCapability(id, pos, rest);
          ret := 0;
        case Skipped =>
          ret := 0;
        case Refused =>
          ret := -1;
      }
    }
  }

  /** The kept capabilities behind path[i] are spaced, and their headers are outside
      the window of path[i]. */
  lemma RestApart(path: seq<offset>, i: nat, fates: seq<Fate>)
    requires |fates| == CONFIG_SIZE && Spaced(path) && i < |path|
    ensures var rest := Keep(path[i + 1..], fates);
            && Spaced(rest)
            && (forall j | 0 <= j < |rest| :: Apart(path[i], rest[j]))
            && (forall j | 0 <= j < |rest| ::
                  !InWindow(path, path[i], rest[j] as int + 1) && !InWindow(path, path[i], rest[j]))
    ensures InWindow(path, path[i], path[i]) && InWindow(path, path[i], path[i] as int + 1)
    ensures path[i] < CONFIG_SIZE - 1 && NextAbove(path, path[i]) <= CONFIG_SIZE
  {
    var behind := path[i + 1..];
    BehindSpaced(path, i);
    KeepSpaced(behind, fates);
    KeptIn(behind, fates);
    OutsideOthers(path, i);
    WindowHoldsHeader(path, i);
    var rest := Keep(behind, fates);
    forall j | 0 <= j < |rest|
      ensures Apart(path[i], rest[j])
      ensures !InWindow(path, path[i], rest[j] as int + 1) && !InWindow(path, path[i], rest[j])
    {
      var m :| 0 <= m < |behind| && behind[m] == rest[j];
      assert path[i + 1 + m] == rest[j];
    }
  }

  lemma KeepStep(path: seq<offset>, i: nat, fates: seq<Fate>)
    requires |fates| == CONFIG_SIZE && i < |path|
    ensures Keep(path[i..], fates)
         == if fates[path[i]] == Kept then [path[i]] + Keep(path[i + 1..], fates) else Keep(path[i + 1..], fates)
  {
    assert path[i..][1..] == path[i + 1..];
  }

  lemma BehindSpaced(path: seq<offset>, i: nat)
    requires Spaced(path) && i < |path|
    ensures Spaced(path[i + 1..])
    ensures forall j | i < j < |path| :: Apart(path[i], path[j])
  {
  }

  lemma WindowHoldsHeader(path: seq<offset>, i: nat)
    requires Spaced(path) && i < |path|
    ensures InWindow(path, path[i], path[i]) && InWindow(path, path[i], path[i] as int + 1)
    ensures path[i] < CONFIG_SIZE - 1 && NextAbove(path, path[i]) <= CONFIG_SIZE
  {
  }

  predicate HasCapList(status: byte) { status / 16 % 2 == 1 }

  function WithCapListBit(status: byte): byte {
    if HasCapList(status) then status else status + 16
  }
}
