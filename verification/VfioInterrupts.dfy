/** The interrupt layer of an assigned PCI device: switching between INTx, MSI and MSI-X,
    the mutually recursive teardown, vectors that are set up as the guest unmasks them,
    and the INTx path that turns BAR mmaps off while an interrupt is being serviced. */
module VfioInterrupts {
  import opened HostKernel
  import opened VfioState

  const MSIX_CAP_LENGTH := 12

  predicate RangesOverlap(first1: int, len1: nat, first2: int, len2: nat) {
    first1 < first2 + len2 && first2 < first1 + len1
  }

  /** A naturally aligned config access touches at most one of two disjoint, dword
      aligned capabilities when the second is a whole number of dwords. */
  lemma AlignedAccessTouchesOne(addr: int, len: nat, cap1: int, size1: nat, cap2: int, size2: nat)
    requires len in {1, 2, 4} && addr % len == 0
    requires cap1 % 4 == 0 && cap2 % 4 == 0 && size2 % 4 == 0 && size1 > 0 && size2 > 0
    requires !RangesOverlap(cap1, size1, cap2, size2)
    ensures !(RangesOverlap(addr, len, cap1, size1) && RangesOverlap(addr, len, cap2, size2))
  {
    InOneDword(addr, len);
    CoversDword(addr / 4, cap2, size2, addr, len);
  }

  lemma InOneDword(addr: int, len: nat)
    requires len in {1, 2, 4} && addr % len == 0
    ensures 4 * (addr / 4) <= addr && addr + len <= 4 * (addr / 4) + 4
  {
  }

  // A capability of whole dwords that meets a dword covers it.
  lemma CoversDword(dword: int, cap: int, size: nat, addr: int, len: nat)
    requires 4 * dword <= addr && addr + len <= 4 * dword + 4 && cap % 4 == 0 && size % 4 == 0
    ensures RangesOverlap(addr, len, cap, size) ==> cap <= 4 * dword && 4 * dword + 4 <= cap + size
  {
    var c, n := cap / 4, size / 4;
    assert cap == 4 * c && size == 4 * n;
  }

  // Where the MSI and MSI-X capabilities are, if present.
  datatype CapLayout = CapLayout(hasMsi: bool, msiCap: int, msiCapSize: nat, hasMsix: bool, msixCap: int) {
    predicate Valid() {
      && msiCap % 4 == 0 && msixCap % 4 == 0 && msiCapSize > 0
      && !RangesOverlap(msiCap, msiCapSize, msixCap, MSIX_CAP_LENGTH)
    }

    predicate TouchesMsi(addr: int, len: nat) {
      hasMsi && RangesOverlap(addr, len, msiCap, msiCapSize)
    }

    predicate TouchesMsix(addr: int, len: nat) {
      hasMsix && RangesOverlap(addr, len, msixCap, MSIX_CAP_LENGTH)
    }
  }

  // A guest config write and what it makes of the emulated MSI and MSI-X capabilities:
  // enable bits, effective masks, the number of MSI vectors the guest allocated and their
  // message.
  datatype ConfigWrite = ConfigWrite(addr: int, len: nat, msiOn: bool, msixOn: bool, masked: seq<bool>, msiCount: nat,
                                     msiBase: int)

  // Everything that can happen to the device.
  datatype Event =
    | GuestConfigWrite(w: ConfigWrite)
    | GuestMasks(masked: seq<bool>)
    | GuestTableWrite(table: seq<int>)
    | GuestReroutesIntx(route: IntxRoute)
    | GuestAccessesBar
    | DeviceRaisesIntx
    | IntxEventfdReady
    | MmapTimerExpires
    | VectorEventfdReady(nr: nat, signaled: bool)

  class VfioDevice {
    const kernel: Kernel
    const pin: nat             // interrupt pin register; 0 is no INTx
    const entries: nat         // MSI-X table size
    const mmapTimeout: nat
    const noKvmIntx: bool
    const noKvmMsi: bool
    const noKvmMsix: bool
    const kvmIntxSupported: bool  // irqfds and resample fds are both available
    const layout: CapLayout

    var interrupt: Mode
    var vectors: seq<Vector>
    var vectorsPtr: Pointer
    var nrVectors: nat
    var intx: IntxState
    var pci: PciState
    var pendingBits: set<nat>  // msix->pending
    var pbaOn: bool            // PBA region enabled
    var notified: seq<nat>     // vectors passed to msi_notify and msix_notify

    // MSI-X vectors whose host trigger may be out of date: the last host call for
    // them failed, or their mask changed and the callback has not run yet.
    ghost var unsynced: set<nat>
    // How often msi_vectors was freed while stale.
    ghost var staleFrees: nat

    /** Set up as at the end of vfio_realize: INTx is enabled if the device has a pin. */
    constructor (kernel: Kernel, pin: nat, entries: nat, mmapTimeout: nat, noKvmIntx: bool, noKvmMsi: bool,
                 noKvmMsix: bool, kvmIntxSupported: bool, layout: CapLayout)
      requires kernel.Idle() && layout.Valid() && (layout.hasMsix ==> entries > 0)
      modifies kernel
      ensures this.kernel == kernel && this.pin == pin && this.entries == entries && this.layout == layout
      ensures Valid() && Coherent() && MessagesCurrent() && unsynced == {} && staleFrees == 0
      ensures !pci.msiOn && !pci.msixOn && |pci.masked| == entries
      ensures kernel.faults == old(kernel.faults) ==> interrupt == Selected()
      ensures kernel.refusals == old(kernel.refusals) ==> KvmUsed()
    {
      this.kernel, this.pin, this.entries, this.mmapTimeout := kernel, pin, entries, mmapTimeout;
      this.noKvmIntx, this.noKvmMsi, this.noKvmMsix := noKvmIntx, noKvmMsi, noKvmMsix;
      this.kvmIntxSupported := kvmIntxSupported;
      this.layout := layout;
      interrupt, vectors, vectorsPtr, nrVectors := None, [], Null, 0;
      intx := IntxState(0, 0, false, false, IntxRoute(false, 0), false, false, true);
      pci := PciState(false, false, seq(entries, _ => true), false, 0, seq(entries, _ => 0));
      pendingBits, pbaOn, notified, unsynced, staleFrees := {}, false, [], {}, 0;
      new;
      IntxEnable();
    }

    /** The device and the host agree, with the device in the given mode. */
    ghost predicate Agrees(mode: Mode)
      reads this, kernel
    {
      && Accounted(IntxOwned(mode, intx), vectors, kernel.ledger)
      && IntxSafe(mode, intx, kernel.irq, kernel.ledger.handlers, mmapTimeout)
      && Shaped(mode, vectors, nrVectors, vectorsPtr, pci, entries)
      && MsiRouted(mode, vectors, kernel.msiTriggers)
      && MsixRouted(mode, vectors, pci.masked, unsynced, kernel.msixTriggers)
      && (mode == Msix ==> forall i | i in kernel.msixTriggers :: i < nrVectors)
      && (mode != Msix ==> unsynced == {})
      && (pendingBits != {} ==> pbaOn)
    }

    /** Between two calls into the interrupt layer. */
    ghost predicate Valid()
      reads this, kernel
    {
      && Agrees(interrupt)
      && (forall i | i in pendingBits :: interrupt == Msix && i < nrVectors)
    }

    /** Every KVM route delivers what the guest has programmed for its vector, except for
        masked MSI-X vectors. */
    ghost predicate MessagesCurrent()
      reads this, kernel
    {
      Programmed(interrupt, vectors, pci, kernel.messages, {})
    }

    /** KVM delivers what it may deliver: INTx if the route is enabled, every MSI vector and
        every unmasked MSI-X vector, unless the user has excluded it. */
    ghost predicate KvmUsed()
      reads this, kernel
    {
      && kernel.irq.stuck == {}
      && (interrupt == INTx ==> IntxBypass())
      && (interrupt == Msi && !noKvmMsi ==> forall i | 0 <= i < |vectors| :: vectors[i].Bypassed())
      && (interrupt == Msix && !noKvmMsix ==>
            |pci.masked| == |vectors| && forall i | 0 <= i < |vectors| && !pci.masked[i] :: vectors[i].Bypassed())
    }

    predicate IntxBypass()
      reads this
    {
      !noKvmIntx && kvmIntxSupported && intx.route.enabled ==> intx.kvmAccel
    }

    // INTx ------------------------------------------------------------------------

    // vfio_intx_mmap_enable, run when the timer expires
    method IntxMmapEnable()
      requires Valid() && intx.timerArmed
      modifies `intx
      ensures Valid()
      ensures intx == old(intx).(timerArmed := old(intx).pending, mmapsOn := !old(intx).pending)
    {
      hide Accounted, MsiRouted, MsixRouted;
      intx := intx.(timerArmed := false);
      if intx.pending {
        intx := intx.(timerArmed := true);
        return;
      }
      intx := intx.(mmapsOn := true);
    }

    // vfio_intx_interrupt, the handler of the INTx eventfd
    method IntxInterrupt()
      requires Valid() && interrupt == INTx && intx.interrupt in kernel.ledger.handlers
      modifies `intx, kernel`irq
      ensures Valid()
      ensures kernel.irq == old(kernel.irq).(signaled := false)
      ensures !old(kernel.irq).signaled ==> intx == old(intx)
      ensures old(kernel.irq).signaled ==>
                intx == old(intx).(pending := true, lineAsserted := true, mmapsOn := false,
                                   timerArmed := mmapTimeout > 0 || old(intx).timerArmed)
    {
      hide Accounted, MsiRouted, MsixRouted;
      var signaled := kernel.TakeIntxEvent();
      if !signaled {
        return;
      }
      intx := intx.(pending := true, lineAsserted := true);
      intx := intx.(mmapsOn := false);
      if mmapTimeout > 0 {
        intx := intx.(timerArmed := true);
      }
    }

    // vfio_intx_eoi
    method IntxEoi()
      requires Valid()
      modifies `intx, kernel`irq
      ensures Valid()
      ensures intx == old(intx).(pending := false, lineAsserted := false)
      ensures kernel.irq == if old(intx).pending then old(kernel.irq).(masked := false) else old(kernel.irq)
    {
      hide Accounted, MsiRouted, MsixRouted;
      if !intx.pending {
        return;
      }
      intx := intx.(pending := false, lineAsserted := false);
      kernel.SetIntxMask(false);
    }

    // vfio_intx_enable_kvm; `interrupt` may not be set to INTx yet
    method IntxEnableKvm()
      requires Accounted(IntxOwned(INTx, intx), vectors, kernel.ledger) && !intx.kvmAccel
      requires LineSafe(INTx, intx, kernel.irq, kernel.ledger.handlers)
      modifies `intx, kernel`ledger, kernel`irq, kernel`refusals
      ensures old(kernel.refusals) <= kernel.refusals
      ensures kernel.refusals == old(kernel.refusals) && old(kernel.irq).stuck == {} ==>
                IntxBypass() && kernel.irq.stuck == {}
      ensures Accounted(IntxOwned(INTx, intx), vectors, kernel.ledger)
      ensures LineSafe(INTx, intx, kernel.irq, kernel.ledger.handlers)
      ensures intx.(pending := false, lineAsserted := false, kvmAccel := false, unmask := 0)
           == old(intx).(pending := false, lineAsserted := false, kvmAccel := false, unmask := 0)
      ensures intx.kvmAccel ==> !noKvmIntx && kvmIntxSupported && intx.route.enabled
      // An irqfd that KVM did not give up keeps KVM off.
      ensures old(kernel.irq).stuck <= kernel.irq.stuck && (old(kernel.irq).stuck != {} ==> !intx.kvmAccel)
    {
      hide Accounted;
      if noKvmIntx || !kvmIntxSupported || !intx.route.enabled {
        return;
      }
      ghost var ledger := kernel.ledger;
      IntxTriggerHeld(IntxOwned(INTx, intx), vectors, ledger);
      HandlerAccounted(IntxOwned(INTx, intx), vectors, ledger, intx.interrupt, false);
      kernel.SetFdHandler(intx.interrupt, false);
      kernel.SetIntxMask(true);
      intx := intx.(pending := false, lineAsserted := false);
      ghost var unlistened := kernel.ledger;
      var fd := AssignIntx();
      if fd >= 0 {
        GainIntxUnmask(IntxOwned(INTx, intx), vectors, unlistened, fd);
        kernel.SetIntxMask(false);
        intx := intx.(unmask := fd, kvmAccel := true);
        return;
      }
      HandlerAccounted(IntxOwned(INTx, intx), vectors, kernel.ledger, intx.interrupt, true);
      kernel.SetFdHandler(intx.interrupt, true);
      kernel.SetIntxMask(false);
    }

    // The steps of it that can fail: the eventfd to unmask on, KVM's irqfd and VFIO's
    // side of it.  A negative result means that they have been undone.
    method AssignIntx() returns (fd: int)
      requires Accounted(IntxOwned(INTx, intx), vectors, kernel.ledger) && !intx.kvmAccel
      requires intx.interrupt in kernel.ledger.eventfds && BypassedBy(intx, kernel.irq)
      requires kernel.irq.trigger == intx.interrupt
      modifies kernel`ledger, kernel`irq, kernel`refusals
      ensures old(kernel.refusals) <= kernel.refusals && (fd < 0 ==> old(kernel.refusals) < kernel.refusals)
      ensures fd < 0 ==> kernel.ledger == old(kernel.ledger) && BypassedBy(intx, kernel.irq)
      ensures fd < 0 ==> old(kernel.irq).stuck <= kernel.irq.stuck
      ensures fd >= 0 ==>
                && fd !in old(kernel.ledger).eventfds && fd !in kernel.ledger.handlers && fd !in kernel.ledger.bindings
                && kernel.ledger == old(kernel.ledger).(eventfds := old(kernel.ledger).eventfds[fd := IntxUnmask])
                && BypassedBy(intx.(unmask := fd, kvmAccel := true), kernel.irq) && old(kernel.irq).stuck == {}
      ensures kernel.irq
           == old(kernel.irq).(unmask := kernel.irq.unmask, irqfds := kernel.irq.irqfds, stuck := kernel.irq.stuck)
    {
      hide Accounted, BypassedBy;
      ghost var ledger, irq := kernel.ledger, kernel.irq;
      fd := kernel.TryNewEventfd(IntxUnmask);
      if fd < 0 {
        return;
      }
      FreshEventfd(IntxOwned(INTx, intx), vectors, ledger, fd);
      var irqfdOk := kernel.AssignIntxIrqfd(intx.interrupt, intx.route.irq, fd);
      if irqfdOk {
        BypassAssigned(intx, irq, fd);
        var unmaskOk := kernel.SetIntxUnmask(fd);
        if unmaskOk {
          return;
        }
        kernel.DeassignIntxIrqfd(intx.interrupt, intx.route.irq);
      }
      BypassUndone(intx, kernel.irq, fd);
      kernel.CloseIntxEventfd(fd);
      assert kernel.ledger.eventfds == ledger.eventfds;
      fd := NO_FD;
    }

    // vfio_intx_disable_kvm
    method IntxDisableKvm()
      requires Accounted(IntxOwned(INTx, intx), vectors, kernel.ledger)
      requires LineSafe(INTx, intx, kernel.irq, kernel.ledger.handlers)
      modifies `intx, kernel`ledger, kernel`irq, kernel`refusals
      ensures old(kernel.refusals) <= kernel.refusals
      ensures kernel.refusals == old(kernel.refusals) ==> kernel.irq.stuck == old(kernel.irq).stuck
      ensures Accounted(IntxOwned(INTx, intx), vectors, kernel.ledger)
      ensures LineSafe(INTx, intx, kernel.irq, kernel.ledger.handlers)
      ensures intx == old(intx).(kvmAccel := false)
      ensures kernel.irq.irqfds == map[] || intx.interrupt in kernel.irq.stuck
      ensures !old(intx).kvmAccel ==> kernel.ledger == old(kernel.ledger) && kernel.irq == old(kernel.irq)
    {
      hide Accounted;
      if !intx.kvmAccel {
        return;
      }
      kernel.SetIntxMask(true);
      intx := intx.(pending := false, lineAsserted := false);
      kernel.DeassignIntxIrqfd(intx.interrupt, intx.route.irq);
      LoseIntxUnmask(IntxOwned(INTx, intx), vectors, kernel.ledger);
      kernel.CloseIntxEventfd(intx.unmask);
      intx := intx.(kvmAccel := false);
      IntxTriggerHeld(IntxOwned(INTx, intx), vectors, kernel.ledger);
      HandlerAccounted(IntxOwned(INTx, intx), vectors, kernel.ledger, intx.interrupt, true);
      kernel.SetFdHandler(intx.interrupt, true);
      kernel.SetIntxMask(false);
    }

    // vfio_intx_update, called when the guest reroutes the INTx line
    method IntxUpdate(route: IntxRoute)
      requires Valid()
      modifies `intx, kernel`ledger, kernel`irq, kernel`refusals
      ensures old(kernel.refusals) <= kernel.refusals
      ensures kernel.refusals == old(kernel.refusals) && old(KvmUsed()) ==> KvmUsed()
      ensures Valid()
      ensures interrupt != INTx || route == old(intx).route ==>
                intx == old(intx) && kernel.ledger == old(kernel.ledger) && kernel.irq == old(kernel.irq)
      ensures interrupt == INTx ==> intx.route == route
      ensures interrupt == INTx && route != old(intx).route && route.enabled ==> !intx.pending
      ensures interrupt == INTx && route != old(intx).route && !route.enabled ==>
                intx == old(intx).(route := route, kvmAccel := false)
      // Whatever the old route was, KVM raises the interrupt of the new one.
      ensures interrupt == INTx && kernel.irq.stuck == {} ==>
                kernel.irq.irqfds
                == if intx.kvmAccel then map[intx.interrupt := IntxIrqfd(route.irq, intx.unmask)] else map[]
      ensures old(kernel.irq).stuck <= kernel.irq.stuck
    {
      hide Accounted, MsiRouted, MsixRouted;
      if interrupt != INTx {
        return;
      }
      if intx.route == route {
        return;
      }
      IntxDisableKvm();
      intx := intx.(route := route);
      if !route.enabled {
        return;
      }
      IntxEnableKvm();
      IntxEoi();
    }

    // vfio_intx_disable
    method IntxDisable()
      requires Agrees(INTx) && interrupt == INTx
      modifies `intx, `interrupt, kernel`ledger, kernel`irq, kernel`refusals
      ensures old(kernel.refusals) <= kernel.refusals
      ensures Agrees(None) && interrupt == None
    {
      hide Accounted, MsiRouted, MsixRouted;
      intx := intx.(timerArmed := false);
      IntxDisableKvm();
      kernel.DisableIntxIndex();
      intx := intx.(pending := false, lineAsserted := false);
      intx := intx.(mmapsOn := true);
      IntxTriggerHeld(IntxOwned(INTx, intx), vectors, kernel.ledger);
      HandlerAccounted(IntxOwned(INTx, intx), vectors, kernel.ledger, intx.interrupt, false);
      kernel.SetFdHandler(intx.interrupt, false);
      LoseIntxTrigger(IntxOwned(INTx, intx), vectors, kernel.ledger);
      kernel.CloseIntxEventfd(intx.interrupt);
      interrupt := None;
      Unrouted(INTx, None);
    }

    // Modes without vectors have no MSI or MSI-X triggers.
    lemma Unrouted(mode: Mode, mode': Mode)
      requires mode in {None, INTx} && mode' in {None, INTx} && vectors == []
      requires MsiRouted(mode, vectors, kernel.msiTriggers)
      requires MsixRouted(mode, vectors, pci.masked, unsynced, kernel.msixTriggers)
      ensures MsiRouted(mode', vectors, kernel.msiTriggers)
      ensures MsixRouted(mode', vectors, pci.masked, unsynced, kernel.msixTriggers)
      ensures kernel.msiTriggers == [] && kernel.msixTriggers == map[]
    {
    }

    // vfio_intx_enable
    method IntxEnable()
      requires Agrees(interrupt)
      modifies this, kernel
      ensures Agrees(interrupt) && unchanged(`pbaOn, `staleFrees) && pci == old(pci).(notifiersSet := pci.notifiersSet)
      ensures old(kernel.faults) <= kernel.faults && old(kernel.refusals) <= kernel.refusals
      ensures pin > 0 && kernel.refusals == old(kernel.refusals) ==> KvmUsed()
      ensures pin == 0 ==> unchanged(this) && unchanged(kernel)
      ensures pin > 0 ==> interrupt in {None, INTx} && (kernel.faults == old(kernel.faults) ==> interrupt == INTx)
      ensures old(interrupt) in {None, INTx} ==> vectorsPtr == old(vectorsPtr) && pendingBits == old(pendingBits)
      decreases if interrupt in {Msi, Msix} then 1 else 0, 3
    {
      hide Accounted, MsiRouted, MsixRouted;
      if pin == 0 {
        return;
      }
      DisableInterrupts();
      IntxStart();
    }

    // What vfio_intx_enable does once all interrupts are off.
    method IntxStart()
      requires Agrees(None) && interrupt == None && pin > 0
      modifies `intx, `interrupt, kernel`ledger, kernel`irq, kernel`faults, kernel`refusals
      ensures Agrees(interrupt) && interrupt in {None, INTx}
      ensures old(kernel.faults) <= kernel.faults && old(kernel.refusals) <= kernel.refusals
      ensures kernel.refusals == old(kernel.refusals) ==> KvmUsed()
      ensures kernel.faults == old(kernel.faults) ==> interrupt == INTx
    {
      hide Accounted, MsiRouted, MsixRouted;
      if kvmIntxSupported {
        var route: IntxRoute := *;  // pci_device_route_intx_to_irq
        intx := intx.(route := route);
      }
      var ok := IntxOpen();
      if !ok {
        return;
      }
      IntxEnableKvm();
      interrupt := INTx;
      Unrouted(None, INTx);
    }

    // The INTx eventfd, its handler and its trigger; without a trigger they are gone again.
    method IntxOpen() returns (ok: bool)
      requires Accounted(IntxOwned(None, intx), vectors, kernel.ledger) && interrupt == None
      requires LineSafe(None, intx, kernel.irq, kernel.ledger.handlers)
      modifies `intx, kernel`ledger, kernel`irq, kernel`faults, kernel`refusals
      ensures old(kernel.refusals) <= kernel.refusals && kernel.faults == old(kernel.faults) + if ok then 0 else 1
      ensures intx == old(intx).(interrupt := intx.interrupt)
      ensures !ok ==> kernel.ledger == old(kernel.ledger) && kernel.irq == old(kernel.irq)
      ensures ok ==> Accounted(IntxOwned(INTx, intx), vectors, kernel.ledger) && kernel.irq.stuck == {}
      ensures ok ==> LineSafe(INTx, intx, kernel.irq, kernel.ledger.handlers) && !intx.kvmAccel
    {
      hide Accounted;
      ghost var ledger := kernel.ledger;
      var fd := kernel.TryNewEventfd(IntxTrigger);
      if fd < 0 {
        kernel.faults := kernel.faults + 1;
        return false;
      }
      FreshEventfd(IntxOwned(None, intx), vectors, ledger, fd);
      GainIntxTrigger(IntxOwned(None, intx), vectors, ledger, fd);
      intx := intx.(interrupt := fd);
      HandlerAccounted(IntxOwned(INTx, intx), vectors, kernel.ledger, fd, true);
      kernel.SetFdHandler(fd, true);
      ok := kernel.SetIntxTrigger(fd);
      if !ok {
        kernel.SetFdHandler(fd, false);
        kernel.CloseEventfd(fd);
        assert kernel.ledger == ledger;
      }
    }

    // vfio_disable_interrupts
    method DisableInterrupts()
      requires Agrees(interrupt)
      modifies this, kernel
      ensures Agrees(None) && interrupt == None && kernel.Idle()
      ensures unchanged(`pbaOn, `staleFrees) && pci == old(pci).(notifiersSet := false)
      ensures old(kernel.faults) <= kernel.faults && old(kernel.refusals) <= kernel.refusals
      ensures vectorsPtr == if old(interrupt) in {Msi, Msix} then Null else old(vectorsPtr)
      ensures pendingBits == if old(interrupt) == Msix then {} else old(pendingBits)
      decreases if interrupt in {Msi, Msix} then 1 else 0, 2
    {
      hide Accounted, MsiRouted, MsixRouted;
      if interrupt == Msix {
        MsixDisable();
      } else if interrupt == Msi {
        MsiDisable();
      }
      if interrupt == INTx {
        IntxDisable();
      }
      NoOwnersHoldNothing(vectors, kernel.ledger);
      Unrouted(None, None);
    }

    // Vectors -----------------------------------------------------------------------

    // vfio_add_kvm_msi_virq
    method AddKvmMsiVirq(i: nat, msix: bool, message: Message)
      requires Accounted(IntxOwned(interrupt, intx), vectors, kernel.ledger)
      requires i < |vectors| && vectors[i].inUse && vectors[i].virq < 0
      modifies `vectors, kernel`ledger, kernel`messages, kernel`refusals
      ensures old(kernel.refusals) <= kernel.refusals
      ensures Accounted(IntxOwned(interrupt, intx), vectors, kernel.ledger)
      ensures |vectors| == |old(vectors)| && vectors == old(vectors)[i := vectors[i]]
      ensures vectors[i] == old(vectors)[i].(virq := vectors[i].virq, kvmInterrupt := vectors[i].kvmInterrupt)
      ensures MessagesKept(vectors, old(kernel.messages), kernel.messages, i)
      ensures vectors[i].Bypassed() ==> Carries(vectors[i], kernel.messages, message)
      ensures (if msix then noKvmMsix else noKvmMsi) ==> vectors == old(vectors)
      ensures kernel.ledger.handlers == old(kernel.ledger).handlers
      ensures !(if msix then noKvmMsix else noKvmMsi) && kernel.refusals == old(kernel.refusals) ==>
                vectors[i].Bypassed()
    {
      hide Accounted, MessagesKept;
      ghost var ledger, messages, was := kernel.ledger, kernel.messages, vectors;
      SameMessagesKept(vectors, messages, i);
      if (msix && noKvmMsix) || (!msix && noKvmMsi) {
        return;
      }
      var fd := kernel.TryNewEventfd(VectorBypass(i));
      if fd < 0 {
        return;
      }
      FreshEventfd(IntxOwned(interrupt, intx), vectors, ledger, fd);
      var virq := kernel.AddMsiRoute(i, message);
      if virq >= 0 {
        RouteNotShared(IntxOwned(interrupt, intx), vectors, ledger, i, virq, messages, message);
      }
      if virq < 0 {
        kernel.CloseEventfd(fd);
        assert kernel.ledger == ledger;
        return;
      }
      var ok := kernel.BindIrqfd(fd, virq);
      if !ok {
        kernel.ReleaseVirq(virq);
        kernel.CloseEventfd(fd);
        assert kernel.ledger == ledger;
        return;
      }
      RouteVector(IntxOwned(interrupt, intx), vectors, ledger, i, fd, virq);
      vectors := vectors[i := vectors[i].(virq := virq, kvmInterrupt := fd)];
      KeptByOthers(was, vectors, messages, kernel.messages, i);
    }

    // vfio_remove_kvm_msi_virq
    method RemoveKvmMsiVirq(i: nat)
      requires Accounted(IntxOwned(interrupt, intx), vectors, kernel.ledger)
      requires i < |vectors| && vectors[i].Bypassed()
      modifies `vectors, kernel`ledger
      ensures Accounted(IntxOwned(interrupt, intx), vectors, kernel.ledger)
      ensures vectors == old(vectors)[i := old(vectors)[i].(virq := -1)]
      ensures kernel.ledger.handlers == old(kernel.ledger).handlers
    {
      hide Accounted;
      var v := vectors[i];
      VectorHolds(IntxOwned(interrupt, intx), vectors, kernel.ledger, i);
      UnrouteVector(IntxOwned(interrupt, intx), vectors, kernel.ledger, i);
      kernel.UnbindIrqfd(v.kvmInterrupt, v.virq);
      kernel.ReleaseVirq(v.virq);
      vectors := vectors[i := v.(virq := -1)];
      kernel.CloseEventfd(v.kvmInterrupt);
    }

    // Vector i gives back its route, its two eventfds and its handler.  The entry is
    // marked unused because the array is freed next.
    method CleanVector(i: nat)
      requires Accounted(IntxOwned(interrupt, intx), vectors, kernel.ledger)
      requires i < |vectors| && vectors[i].inUse
      modifies `vectors, kernel`ledger
      ensures Accounted(IntxOwned(interrupt, intx), vectors, kernel.ledger)
      ensures |vectors| == |old(vectors)| && vectors == old(vectors)[i := vectors[i]] && !vectors[i].inUse
      ensures kernel.ledger.handlers <= old(kernel.ledger).handlers
    {
      hide Accounted;
      if vectors[i].virq >= 0 {
        RemoveKvmMsiVirq(i);
      }
      var fd := vectors[i].interrupt;
      VectorHolds(IntxOwned(interrupt, intx), vectors, kernel.ledger, i);
      HandlerAccounted(IntxOwned(interrupt, intx), vectors, kernel.ledger, fd, false);
      kernel.SetFdHandler(fd, false);
      DropVector(IntxOwned(interrupt, intx), vectors, kernel.ledger, i);
      kernel.CloseEventfd(fd);
      vectors := vectors[i := vectors[i].(inUse := false)];
    }

    // vfio_enable_vectors, for MSI
    method EnableMsiVectors() returns (ret: int)
      requires nrVectors == |vectors|
      modifies kernel`msiTriggers, kernel`faults, kernel`offered
      ensures kernel.offered == if ret > 0 then ret else old(kernel.offered)
      ensures ret <= nrVectors && (kernel.refusesMsi ==> ret < 0)
      ensures ret == 0 ==> MsiRouted(Msi, vectors, kernel.msiTriggers) && kernel.faults == old(kernel.faults)
      ensures ret != 0 ==> kernel.msiTriggers == old(kernel.msiTriggers) && kernel.faults == old(kernel.faults) + 1
    {
      var fds := VectorFds(false);
      ret := kernel.SetMsiTriggers(fds);
    }

    // vfio_enable_vectors, for MSI-X
    method EnableMsixVectors() returns (ok: bool)
      requires nrVectors <= |vectors| == |pci.masked| && kernel.msixTriggers == map[]
      modifies kernel`msixTriggers, kernel`faults
      ensures ok && UsedBelow(vectors, nrVectors) ==> MsixRouted(Msix, vectors, pci.masked, {}, kernel.msixTriggers)
      ensures !ok ==> kernel.msixTriggers == map[]
      ensures forall i | i in kernel.msixTriggers :: i < nrVectors
      ensures kernel.faults == old(kernel.faults) + if ok then 0 else 1
    {
      var fds := VectorFds(true);
      ok := kernel.SetMsixTriggers(fds);
    }

    // The loop of vfio_enable_vectors.
    method VectorFds(msix: bool) returns (fds: seq<int>)
      requires nrVectors <= |vectors| && (msix ==> |pci.masked| == |vectors|)
      ensures |fds| == nrVectors
      ensures forall i: nat | i < nrVectors :: fds[i] == vectors[i].Trigger(msix && pci.masked[i])
    {
      fds := [];
      for i := 0 to nrVectors
        invariant |fds| == i
        invariant forall j: nat | j < i :: fds[j] == vectors[j].Trigger(msix && pci.masked[j])
      {
        var fd := NO_FD;
        if vectors[i].inUse {
          if vectors[i].virq < 0 || (msix && pci.masked[i]) {
            fd := vectors[i].interrupt;
          } else {
            fd := vectors[i].kvmInterrupt;
          }
        }
        fds := fds + [fd];
      }
    }

    // vfio_msix_vector_do_use.  With no message the vector stays on QEMU's eventfd and
    // gets no handler.
    method MsixVectorDoUse(nr: nat, withMessage: bool)
      requires Valid() && interrupt == Msix && nr < entries
      requires withMessage ==> !pci.masked[nr]
      modifies `vectors, `nrVectors, `pendingBits, `pbaOn, `unsynced
      modifies kernel`ledger, kernel`messages, kernel`msixTriggers, kernel`faults, kernel`refusals
      ensures old(kernel.refusals) <= kernel.refusals
      ensures Valid()
      ensures |vectors| == entries && vectors[nr].inUse && (!withMessage ==> vectors[nr].virq < 0)
      ensures vectors == old(vectors)[nr := vectors[nr]]
      ensures nrVectors == if old(nrVectors) < nr + 1 then nr + 1 else old(nrVectors)
      ensures pendingBits == old(pendingBits) - {nr} && pbaOn == (old(pbaOn) && pendingBits != {})
      ensures withMessage ==> vectors[nr].interrupt in kernel.ledger.handlers
      ensures MessagesKept(vectors, old(kernel.messages), kernel.messages, nr)
      ensures vectors[nr].Bypassed() ==> Carries(vectors[nr], kernel.messages, TableEntry(pci.table[nr]))
      ensures old(kernel.faults) <= kernel.faults
      ensures kernel.faults == old(kernel.faults) ==> unsynced <= old(unsynced) - {nr}
      ensures withMessage && !noKvmMsix && kernel.refusals == old(kernel.refusals) ==> vectors[nr].Bypassed()
    {
      hide Accounted, MsiRouted, MsixRouted, MessagesKept;
      NoMsiTriggers(Msix);
      PrepareVector(nr, withMessage);
      SignalVector(nr, old(vectors));
      NoMsi();
      pendingBits := pendingBits - {nr};
      if forall i | 0 <= i < nrVectors :: i !in pendingBits {
        assert forall i :: i !in pendingBits;
        pbaOn := false;
      }
    }

    // The first half of vfio_msix_vector_do_use: eventfd, handler and KVM route.
    method PrepareVector(nr: nat, withMessage: bool)
      requires Accounted(IntxOwned(Msix, intx), vectors, kernel.ledger) && interrupt == Msix && nr < |vectors|
      requires IntxSafe(Msix, intx, kernel.irq, kernel.ledger.handlers, mmapTimeout) && nr < |pci.table|
      modifies `vectors, kernel`ledger, kernel`messages, kernel`refusals
      ensures old(kernel.refusals) <= kernel.refusals
      ensures Accounted(IntxOwned(Msix, intx), vectors, kernel.ledger)
      ensures |vectors| == |old(vectors)| && vectors == old(vectors)[nr := vectors[nr]]
      ensures vectors[nr].inUse && (!withMessage ==> vectors[nr].virq < 0)
      ensures IntxSafe(Msix, intx, kernel.irq, kernel.ledger.handlers, mmapTimeout)
      ensures withMessage ==> vectors[nr].interrupt in kernel.ledger.handlers
      ensures MessagesKept(vectors, old(kernel.messages), kernel.messages, nr)
      ensures vectors[nr].Bypassed() ==> Carries(vectors[nr], kernel.messages, TableEntry(pci.table[nr]))
      ensures withMessage && !noKvmMsix && kernel.refusals == old(kernel.refusals) ==> vectors[nr].Bypassed()
    {
      hide Accounted, MessagesKept;
      ghost var messages := kernel.messages;
      if !vectors[nr].inUse {
        ghost var ledger := kernel.ledger;
        var fd := kernel.NewEventfd(VectorTrigger(nr));
        UseVector(IntxOwned(Msix, intx), vectors, ledger, nr, fd);
        vectors := vectors[nr := vectors[nr].(inUse := true, virq := -1, interrupt := fd)];
      }
      VectorHolds(IntxOwned(Msix, intx), vectors, kernel.ledger, nr);
      HandlerAccounted(IntxOwned(Msix, intx), vectors, kernel.ledger, vectors[nr].interrupt, withMessage);
      kernel.SetFdHandler(vectors[nr].interrupt, withMessage);
      var message := TableEntry(pci.table[nr]);
      SameMessagesKept(vectors, messages, nr);
      if vectors[nr].virq >= 0 {
        if !withMessage {
          ghost var was := vectors;
          RemoveKvmMsiVirq(nr);
          KeptByOthers(was, vectors, messages, messages, nr);
        } else {
          // vfio_update_kvm_msi_virq
          RouteNotShared(IntxOwned(Msix, intx), vectors, kernel.ledger, nr, vectors[nr].virq, messages, message);
          kernel.UpdateMsiRoute(vectors[nr].virq, message);
        }
      } else {
        if withMessage {
          AddKvmMsiVirq(nr, true, message);
        }
      }
    }

    // The second half: tell the host, either by setting up all vectors up to nr anew or
    // by changing nr alone.
    method SignalVector(nr: nat, ghost before: seq<Vector>)
      requires nr < |vectors| == |before| == |pci.masked| && vectors == before[nr := vectors[nr]] && vectors[nr].inUse
      requires vectors[nr].virq >= 0 ==> !pci.masked[nr]
      requires UsedBelow(before, nrVectors) && nrVectors <= |vectors|
      requires MsixRouted(Msix, before, pci.masked, unsynced, kernel.msixTriggers)
      requires forall i | i in kernel.msixTriggers :: i < nrVectors
      modifies `nrVectors, `unsynced, kernel`msixTriggers, kernel`faults
      ensures nrVectors == if old(nrVectors) < nr + 1 then nr + 1 else old(nrVectors)
      ensures UsedBelow(vectors, nrVectors)
      ensures MsixRouted(Msix, vectors, pci.masked, unsynced, kernel.msixTriggers)
      ensures forall i | i in kernel.msixTriggers :: i < nrVectors
      ensures old(kernel.faults) <= kernel.faults
      ensures kernel.faults == old(kernel.faults) ==> unsynced <= old(unsynced) - {nr}
    {
      hide MsixRouted;
      if nrVectors < nr + 1 {
        kernel.DisableMsixIndex();
        nrVectors := nr + 1;
        var ok := EnableMsixVectors();
        NothingSignaled(vectors, pci.masked);
        unsynced := if ok then {} else UsedVectors(vectors);
      } else {
        var fd := if vectors[nr].virq >= 0 then vectors[nr].kvmInterrupt else vectors[nr].interrupt;
        VectorChanged(before, vectors, pci.masked, unsynced, kernel.msixTriggers, nr);
        TriggerSet(vectors, pci.masked, unsynced + {nr}, kernel.msixTriggers, nr, fd);
        var ok := kernel.SetMsixTrigger(nr, fd);
        assert unsynced + {nr} - {nr} == unsynced - {nr};
        unsynced := if ok then unsynced - {nr} else unsynced + {nr};
      }
    }

    // vfio_msix_vector_release
    method MsixVectorRelease(nr: nat)
      requires Agrees(Msix) && interrupt == Msix && nr < nrVectors && vectors[nr].inUse
      modifies `unsynced, kernel`msixTriggers, kernel`faults
      ensures Agrees(Msix)
      ensures old(kernel.faults) <= kernel.faults
      ensures kernel.faults == old(kernel.faults) ==>
                unsynced == if vectors[nr].virq < 0 then old(unsynced)
                            else if pci.masked[nr] then old(unsynced) - {nr} else old(unsynced) + {nr}
    {
      hide Accounted, MsiRouted, MsixRouted;
      if vectors[nr].virq >= 0 {
        TriggerSet(vectors, pci.masked, unsynced, kernel.msixTriggers, nr, vectors[nr].interrupt);
        var ok := kernel.SetMsixTrigger(nr, vectors[nr].interrupt);
        unsynced := if ok && pci.masked[nr] then unsynced - {nr} else unsynced + {nr};
      }
    }

    // Mode changes --------------------------------------------------------------------

    // vfio_msix_enable
    method MsixEnable()
      requires Valid() && entries > 0
      modifies this, kernel
      ensures Valid() && interrupt == Msix && pci == old(pci).(notifiersSet := true) && UnmaskedInUse(pci, vectors)
      ensures old(kernel.refusals) <= kernel.refusals
      ensures kernel.refusals == old(kernel.refusals) ==> KvmUsed()
      ensures old(kernel.faults) <= kernel.faults && staleFrees == old(staleFrees)
      ensures kernel.faults == old(kernel.faults) ==> unsynced == {}
      // Vector 0 stays enabled although the guest may have it masked: the host signals
      // QEMU's eventfd for it.  No other masked vector has been touched.
      ensures vectors[0].inUse && nrVectors > 0
      ensures pci.masked[0] ==> vectors[0].virq < 0
      ensures pci.masked[0] && kernel.faults == old(kernel.faults) ==>
                TriggerOf(kernel.msixTriggers, 0) == vectors[0].interrupt >= 0
      ensures forall i | 0 < i < entries && pci.masked[i] :: vectors[i] == ZEROED
      ensures MessagesCurrent()
    {
      hide Accounted, IntxSafe, MsiRouted, MsixRouted, Programmed, MessagesKept;
      EnterMsix();
      SetVectorNotifiers();
      UsedVectorSignaled(0);
    }

    // MSI-X with vector 0 used and released again, which is what enables MSI-X in the host.
    method EnterMsix()
      requires Valid() && entries > 0
      modifies this, kernel
      ensures Valid() && interrupt == Msix && pci == old(pci).(notifiersSet := false) && MessagesCurrent()
      ensures old(kernel.refusals) <= kernel.refusals && kernel.irq == NO_IRQ
      ensures old(kernel.faults) <= kernel.faults && staleFrees == old(staleFrees)
      ensures kernel.faults == old(kernel.faults) ==> unsynced == {}
      ensures |vectors| == entries && vectors[0].inUse && vectors[0].virq < 0 && nrVectors > 0
      ensures forall i | 0 < i < entries :: vectors[i] == ZEROED
    {
      hide Accounted, IntxSafe, MsiRouted, MsixRouted, Programmed, MessagesKept;
      DisableInterrupts();
      AllocateMsixVectors();
      MsixVectorDoUse(0, false);
      MsixVectorRelease(0);
      NothingProgrammed(Msix, vectors, pci, kernel.messages);
    }

    // What the host signals for a vector in use.
    lemma UsedVectorSignaled(nr: nat)
      requires Valid() && interrupt == Msix && nr < |vectors| && vectors[nr].inUse
      ensures vectors[nr].interrupt >= 0
      ensures nr !in unsynced ==> TriggerOf(kernel.msixTriggers, nr) == vectors[nr].Trigger(pci.masked[nr])
    {
      hide Accounted, MsiRouted, MsixRouted;
      LiveVectorFd(IntxOwned(Msix, intx), vectors, kernel.ledger, nr);
      VectorTriggered(vectors, pci.masked, unsynced, kernel.msixTriggers, nr);
    }

    // Allocate msi_vectors for MSI-X and switch the mode.
    method AllocateMsixVectors()
      requires Agrees(None) && interrupt == None && pendingBits == {}
      modifies `vectors, `vectorsPtr, `interrupt
      ensures Valid() && interrupt == Msix && nrVectors == 0 && UsedBelow(vectors, 0)
      ensures |vectors| == entries && forall i | 0 <= i < entries :: vectors[i] == ZEROED
    {
      hide Accounted, MsiRouted, MsixRouted;
      NoMsiTriggers(None);
      NoMsixTriggers(None);
      UnusedVectors(IntxOwned(None, intx), [], seq(entries, _ => ZEROED), kernel.ledger);
      vectors := seq(entries, _ => ZEROED);
      UnusedRouted(vectors, pci.masked);
      NoMsi();
      vectorsPtr := Allocated;
      interrupt := Msix;
    }

    // msix_set_vector_notifiers: the core reports every vector that is unmasked.
    method SetVectorNotifiers()
      requires Valid() && interrupt == Msix && MessagesCurrent()
      modifies `pci, `vectors, `nrVectors, `pendingBits, `pbaOn, `unsynced
      modifies kernel`ledger, kernel`messages, kernel`msixTriggers, kernel`faults, kernel`refusals
      ensures old(kernel.refusals) <= kernel.refusals
      ensures Valid() && pci == old(pci).(notifiersSet := true) && UnmaskedInUse(pci, vectors)
      ensures forall i | 0 <= i < entries && pci.masked[i] :: vectors[i] == old(vectors)[i]
      ensures old(nrVectors) <= nrVectors && MessagesCurrent()
      ensures old(kernel.faults) <= kernel.faults
      ensures kernel.faults == old(kernel.faults) ==> unsynced <= old(unsynced)
      ensures kernel.refusals == old(kernel.refusals) && !noKvmMsix ==>
                forall i | 0 <= i < entries && !pci.masked[i] :: vectors[i].Bypassed()
    {
      hide Accounted, MsiRouted, MsixRouted, Programmed, MessagesKept;
      ghost var was := pci;
      pci := pci.(notifiersSet := true);
      NotifiersAside(Msix, vectors, was, pci, kernel.messages, {});
      for nr := 0 to entries
        invariant Valid() && |vectors| == entries && pci == old(pci).(notifiersSet := true)
        invariant forall i | 0 <= i < entries && pci.masked[i] :: vectors[i] == old(vectors)[i]
        invariant old(nrVectors) <= nrVectors && Programmed(Msix, vectors, pci, kernel.messages, {})
        invariant forall i | 0 <= i < nr && !pci.masked[i] :: vectors[i].inUse
        invariant old(kernel.faults) <= kernel.faults && old(kernel.refusals) <= kernel.refusals
        invariant kernel.refusals == old(kernel.refusals) && !noKvmMsix ==>
                    forall i | 0 <= i < nr && !pci.masked[i] :: vectors[i].Bypassed()
        invariant kernel.faults == old(kernel.faults) ==> unsynced <= old(unsynced)
      {
        if !pci.masked[nr] {
          ghost var before, messages := vectors, kernel.messages;
          MsixVectorDoUse(nr, true);
          VectorProgrammed(before, vectors, pci, messages, kernel.messages, {}, nr);
          assert {} - {nr} == {};
        }
      }
    }

    lemma NoMsi()
      requires kernel.msiTriggers == []
      ensures MsiRouted(Msix, vectors, kernel.msiTriggers) && MsiRouted(None, vectors, kernel.msiTriggers)
    {
    }

    lemma NoMsix(mode: Mode)
      requires kernel.msixTriggers == map[] && mode != Msix
      ensures MsixRouted(mode, vectors, pci.masked, unsynced, kernel.msixTriggers)
    {
    }

    // vfio_msi_enable
    method MsiEnable(count: nat)
      requires Valid() && count > 0
      modifies this, kernel
      ensures Valid() && interrupt in {None, Msi} && pci == old(pci).(notifiersSet := false)
      ensures vectorsPtr == if interrupt == Msi then Allocated else Stale
      ensures interrupt == Msi ==> 0 < nrVectors <= count
      ensures old(kernel.faults) <= kernel.faults && staleFrees == old(staleFrees)
      ensures kernel.faults == old(kernel.faults) ==> interrupt == Msi && nrVectors == count
      ensures kernel.refusesMsi ==> interrupt == None
      // A retry uses the number the host has offered.
      ensures interrupt == Msi && nrVectors != count ==> nrVectors == kernel.offered
      ensures old(kernel.refusals) <= kernel.refusals
      ensures kernel.refusals == old(kernel.refusals) ==> KvmUsed()
      ensures MessagesCurrent()
    {
      hide Accounted, MsiRouted, MsixRouted;
      DisableInterrupts();
      nrVectors := count;
      while true
        invariant Accounted(IntxOwned(None, intx), vectors, kernel.ledger) && vectors == [] && interrupt == None
        invariant IntxSafe(None, intx, kernel.irq, kernel.ledger.handlers, mmapTimeout)
        invariant 0 < nrVectors <= count
        invariant kernel.msiTriggers == [] && kernel.msixTriggers == map[] && pendingBits == {} && unsynced == {}
        invariant pci == old(pci).(notifiersSet := false)
        invariant |pci.masked| == |pci.table| == entries && staleFrees == old(staleFrees)
        invariant old(kernel.faults) <= kernel.faults && old(kernel.refusals) <= kernel.refusals
        invariant kernel.irq == NO_IRQ && (nrVectors < count ==> nrVectors == kernel.offered)
        invariant nrVectors < count ==> old(kernel.faults) < kernel.faults && !kernel.refusesMsi
        decreases nrVectors
      {
        var ret := TryMsi();
        if ret == 0 {
          return;
        }
        if ret > 0 && ret != nrVectors {
          nrVectors := ret;
        } else {
          nrVectors := 0;
          NoMsi();
          NoMsix(None);
          return;
        }
      }
    }

    // One attempt to set up nrVectors vectors; a failed one frees them again.
    method TryMsi() returns (ret: int)
      requires Accounted(IntxOwned(None, intx), vectors, kernel.ledger) && vectors == [] && interrupt == None
      requires IntxSafe(None, intx, kernel.irq, kernel.ledger.handlers, mmapTimeout)
      requires nrVectors > 0 && |pci.masked| == |pci.table| == entries && !pci.notifiersSet
      requires kernel.msiTriggers == [] && kernel.msixTriggers == map[] && pendingBits == {} && unsynced == {}
      modifies `vectors, `vectorsPtr, `interrupt, kernel`ledger, kernel`messages, kernel`msiTriggers
      modifies kernel`faults, kernel`refusals, kernel`offered
      ensures old(kernel.refusals) <= kernel.refusals
      ensures kernel.offered == if ret > 0 then ret else old(kernel.offered)
      ensures ret == 0 && kernel.refusals == old(kernel.refusals) && !noKvmMsi ==>
                forall i | 0 <= i < |vectors| :: vectors[i].Bypassed()
      ensures ret <= nrVectors && (kernel.refusesMsi ==> ret < 0)
      ensures kernel.faults == old(kernel.faults) + if ret == 0 then 0 else 1
      ensures ret == 0 ==> Agrees(Msi) && interrupt == Msi && vectorsPtr == Allocated && MessagesCurrent()
      ensures ret != 0 ==>
                Accounted(IntxOwned(None, intx), vectors, kernel.ledger) && vectors == [] && interrupt == None
      ensures ret != 0 ==> IntxSafe(None, intx, kernel.irq, kernel.ledger.handlers, mmapTimeout)
      ensures ret != 0 ==> kernel.msiTriggers == [] && vectorsPtr == Stale
    {
      hide Accounted, MsiRouted, MsixRouted;
      vectorsPtr := Allocated;
      AllocateMsiVectors();
      interrupt := Msi;
      ret := EnableMsiVectors();
      if ret == 0 {
        NoMsix(Msi);
        return;
      }
      FreeVectors();
      vectorsPtr := Stale;
      interrupt := None;
    }

    // The set-up loop of vfio_msi_enable.
    method AllocateMsiVectors()
      requires Accounted(IntxOwned(None, intx), vectors, kernel.ledger) && vectors == [] && interrupt == None
      requires IntxSafe(None, intx, kernel.irq, kernel.ledger.handlers, mmapTimeout)
      modifies `vectors, kernel`ledger, kernel`messages, kernel`refusals
      ensures old(kernel.refusals) <= kernel.refusals
      ensures Accounted(IntxOwned(None, intx), vectors, kernel.ledger) && |vectors| == nrVectors
      ensures forall i | 0 <= i < nrVectors :: vectors[i].inUse && vectors[i].interrupt in kernel.ledger.handlers
      ensures Programmed(Msi, vectors, pci, kernel.messages, {})
      ensures kernel.refusals == old(kernel.refusals) && !noKvmMsi ==>
                forall i | 0 <= i < nrVectors :: vectors[i].Bypassed()
    {
      hide Accounted, MessagesKept, Programmed;
      UnusedVectors(IntxOwned(None, intx), [], seq(nrVectors, _ => ZEROED), kernel.ledger);
      vectors := seq(nrVectors, _ => ZEROED);
      NothingProgrammed(Msi, vectors, pci, kernel.messages);
      for i := 0 to nrVectors
        invariant Accounted(IntxOwned(None, intx), vectors, kernel.ledger) && |vectors| == nrVectors
        invariant forall j | 0 <= j < i :: vectors[j].inUse && vectors[j].interrupt in kernel.ledger.handlers
        invariant forall j | i <= j < nrVectors :: !vectors[j].inUse
        invariant old(kernel.refusals) <= kernel.refusals
        invariant kernel.refusals == old(kernel.refusals) && !noKvmMsi ==>
                    forall j | 0 <= j < i :: vectors[j].Bypassed()
        invariant Programmed(Msi, vectors, pci, kernel.messages, {})
      {
        ghost var before, messages := vectors, kernel.messages;
        SetUpMsiVector(i);
        MsiVectorProgrammed(before, vectors, pci, messages, kernel.messages, i);
      }
    }

    // One round of it.
    method SetUpMsiVector(i: nat)
      requires Accounted(IntxOwned(None, intx), vectors, kernel.ledger)
      requires i < |vectors| && !vectors[i].inUse && interrupt == None
      modifies `vectors, kernel`ledger, kernel`messages, kernel`refusals
      ensures old(kernel.refusals) <= kernel.refusals
      ensures Accounted(IntxOwned(None, intx), vectors, kernel.ledger)
      ensures |vectors| == |old(vectors)| && vectors == old(vectors)[i := vectors[i]]
      ensures vectors[i].inUse && kernel.ledger.handlers == old(kernel.ledger.handlers) + {vectors[i].interrupt}
      ensures MessagesKept(vectors, old(kernel.messages), kernel.messages, i)
      ensures vectors[i].Bypassed() ==> Carries(vectors[i], kernel.messages, MsiMessage(pci.msiBase, i))
      ensures kernel.refusals == old(kernel.refusals) && !noKvmMsi ==> vectors[i].Bypassed()
    {
      hide Accounted, MessagesKept;
      ghost var ledger := kernel.ledger;
      var fd := kernel.NewEventfd(VectorTrigger(i));
      UseVector(IntxOwned(None, intx), vectors, ledger, i, fd);
      vectors := vectors[i := vectors[i].(inUse := true, virq := -1, interrupt := fd)];
      HandlerAccounted(IntxOwned(None, intx), vectors, kernel.ledger, fd, true);
      kernel.SetFdHandler(fd, true);
      AddKvmMsiVirq(i, false, MsiMessage(pci.msiBase, i));
    }

    // vfio_update_msi, when the guest rewrites the message of MSI while it is enabled
    method UpdateMsi()
      requires Valid() && interrupt in {None, Msi}
      modifies kernel`messages
      ensures MessagesCurrent()
    {
      hide Accounted, MsiRouted, MsixRouted, MessagesKept, Programmed;
      NothingProgrammed(Msi, [], pci, kernel.messages);
      for i := 0 to nrVectors
        invariant Programmed(Msi, vectors[..i], pci, kernel.messages, {})
      {
        var v := vectors[i];
        ghost var messages := kernel.messages;
        SameMessagesKept(vectors, messages, i);
        if v.inUse && v.virq >= 0 {
          VectorHolds(IntxOwned(interrupt, intx), vectors, kernel.ledger, i);
          RouteNotShared(IntxOwned(interrupt, intx), vectors, kernel.ledger, i, v.virq, messages,
                         MsiMessage(pci.msiBase, i));
          kernel.UpdateMsiRoute(v.virq, MsiMessage(pci.msiBase, i));
        }
        OneMoreProgrammed(vectors, pci, messages, kernel.messages, i);
      }
      AllProgrammed(interrupt, vectors, pci, kernel.messages);
    }

    // Clean every vector in use and free msi_vectors.
    method FreeVectors()
      requires Accounted(IntxOwned(interrupt, intx), vectors, kernel.ledger)
      requires nrVectors <= |vectors| && UsedBelow(vectors, nrVectors)
      modifies `vectors, kernel`ledger
      ensures Accounted(IntxOwned(interrupt, intx), vectors, kernel.ledger) && vectors == []
      ensures kernel.ledger.handlers <= old(kernel.ledger).handlers
    {
      hide Accounted;
      for i := 0 to nrVectors
        invariant Accounted(IntxOwned(interrupt, intx), vectors, kernel.ledger) && nrVectors <= |vectors|
        invariant forall j | 0 <= j < |vectors| && vectors[j].inUse :: i <= j < nrVectors
        invariant kernel.ledger.handlers <= old(kernel.ledger).handlers
      {
        if vectors[i].inUse {
          CleanVector(i);
        }
      }
      UnusedVectors(IntxOwned(interrupt, intx), vectors, [], kernel.ledger);
      vectors := [];
    }

    // vfio_msi_disable_common
    method MsiDisableCommon()
      requires Accounted(IntxOwned(interrupt, intx), vectors, kernel.ledger) && interrupt != INTx
      requires IntxSafe(interrupt, intx, kernel.irq, kernel.ledger.handlers, mmapTimeout)
      requires nrVectors <= |vectors| && UsedBelow(vectors, nrVectors)
      requires |pci.masked| == |pci.table| == entries && !pci.notifiersSet
      requires kernel.msiTriggers == [] && kernel.msixTriggers == map[] && (pendingBits != {} ==> pbaOn)
      modifies this, kernel
      ensures Agrees(interrupt) && interrupt in {None, INTx} && vectorsPtr == Null
      ensures unchanged(`pci, `pbaOn, `pendingBits)
      ensures old(kernel.faults) <= kernel.faults && old(kernel.refusals) <= kernel.refusals
      ensures kernel.refusals == old(kernel.refusals) && old(kernel.irq).stuck == {} ==> KvmUsed()
      ensures kernel.faults == old(kernel.faults) ==> interrupt == if pin > 0 then INTx else None
      ensures staleFrees == old(staleFrees) + if old(vectorsPtr) == Stale then 1 else 0
      decreases 1, 0
    {
      hide Accounted, IntxSafe, MsiRouted, MsixRouted;
      ForgetVectors();
      IntxEnable();
    }

    // All of it up to the return to INTx.
    method ForgetVectors()
      requires Accounted(IntxOwned(interrupt, intx), vectors, kernel.ledger) && interrupt != INTx
      requires IntxSafe(interrupt, intx, kernel.irq, kernel.ledger.handlers, mmapTimeout)
      requires nrVectors <= |vectors| && UsedBelow(vectors, nrVectors)
      requires |pci.masked| == |pci.table| == entries && !pci.notifiersSet
      requires kernel.msiTriggers == [] && kernel.msixTriggers == map[] && (pendingBits != {} ==> pbaOn)
      modifies `vectors, `vectorsPtr, `nrVectors, `interrupt, `unsynced, `staleFrees, kernel`ledger
      ensures Agrees(None) && interrupt == None && vectorsPtr == Null
      ensures staleFrees == old(staleFrees) + if old(vectorsPtr) == Stale then 1 else 0
    {
      hide Accounted, MsiRouted, MsixRouted;
      FreeVectors();
      if vectorsPtr == Stale {
        staleFrees := staleFrees + 1;
      }
      vectorsPtr := Null;
      nrVectors := 0;
      interrupt := None;
      unsynced := {};
      NoMsi();
      NoMsix(None);
    }

    // vfio_msix_disable
    method MsixDisable()
      requires Agrees(Msix) && interrupt == Msix
      modifies this, kernel
      ensures Agrees(interrupt) && interrupt in {None, INTx} && vectorsPtr == Null && pendingBits == {}
      ensures unchanged(`pbaOn, `staleFrees) && pci == old(pci).(notifiersSet := false)
      ensures old(kernel.faults) <= kernel.faults && old(kernel.refusals) <= kernel.refusals
      ensures kernel.refusals == old(kernel.refusals) && old(kernel.irq).stuck == {} ==> KvmUsed()
      ensures kernel.faults == old(kernel.faults) ==> interrupt == if pin > 0 then INTx else None
      decreases 1, 1
    {
      hide Accounted, MsiRouted, MsixRouted;
      pci := pci.(notifiersSet := false);
      for i := 0 to nrVectors
        invariant Agrees(Msix) && interrupt == Msix && old(kernel.faults) <= kernel.faults
        invariant kernel.refusals == old(kernel.refusals) && kernel.irq == old(kernel.irq)
        invariant pci == old(pci).(notifiersSet := false) && unchanged(`pbaOn, `pendingBits, `staleFrees, `vectorsPtr)
        invariant nrVectors == old(nrVectors)
      {
        if vectors[i].inUse {
          MsixVectorRelease(i);
        }
      }
      if nrVectors > 0 {
        kernel.DisableMsixIndex();
      }
      NoMsiTriggers(Msix);
      MsiDisableCommon();
      pendingBits := {};
    }

    lemma NoMsiTriggers(mode: Mode)
      requires mode != Msi && MsiRouted(mode, vectors, kernel.msiTriggers)
      ensures kernel.msiTriggers == []
    {
    }

    lemma NoMsixTriggers(mode: Mode)
      requires mode != Msix && MsixRouted(mode, vectors, pci.masked, unsynced, kernel.msixTriggers)
      ensures kernel.msixTriggers == map[]
    {
    }

    // vfio_msi_disable
    method MsiDisable()
      requires Agrees(interrupt) && interrupt in {None, Msi}
      modifies this, kernel
      ensures Agrees(interrupt) && interrupt in {None, INTx} && vectorsPtr == Null
      ensures unchanged(`pbaOn, `pendingBits) && pci == old(pci).(notifiersSet := false)
      ensures old(kernel.faults) <= kernel.faults && old(kernel.refusals) <= kernel.refusals
      ensures kernel.refusals == old(kernel.refusals) && old(kernel.irq).stuck == {} ==> KvmUsed()
      ensures kernel.faults == old(kernel.faults) ==> interrupt == if pin > 0 then INTx else None
      ensures staleFrees == old(staleFrees) + if old(vectorsPtr) == Stale then 1 else 0
      decreases 1, 1
    {
      hide Accounted, MsiRouted, MsixRouted;
      NoMsixTriggers(interrupt);
      kernel.DisableMsiIndex();
      MsiDisableCommon();
    }

    // vfio_msi_interrupt, the handler of a vector's QEMU eventfd.  The source aborts
    // in the other modes.
    method MsiInterrupt(nr: nat, signaled: bool)
      requires Valid() && nr < |vectors| && vectors[nr].inUse
      modifies `pendingBits, `pbaOn, `notified
      ensures Valid() && interrupt in {Msi, Msix}
      ensures signaled && interrupt == Msix && pci.masked[nr] ==> pendingBits == old(pendingBits) + {nr} && pbaOn
      ensures !signaled || interrupt == Msi || !pci.masked[nr] ==> unchanged(`pendingBits, `pbaOn)
      ensures notified == old(notified) + if signaled then [nr] else []
    {
      hide Accounted, MsiRouted, MsixRouted;
      if !signaled {
        return;
      }
      if interrupt == Msix {
        if pci.masked[nr] {
          pendingBits := pendingBits + {nr};
          pbaOn := true;
        }
      } else {
        assert interrupt == Msi;
      }
      notified := notified + [nr];
    }

    // Guest accesses ------------------------------------------------------------------

    /** How the enable bits and the mode fit together for a guest that sets at most one
        of the two enable bits. */
    predicate Coherent()
      reads this
    {
      && !(pci.msiOn && pci.msixOn)
      && layout.Valid() && (layout.hasMsix ==> entries > 0)
      && (pci.msixOn <==> interrupt == Msix)
      && (pci.msixOn ==> pci.notifiersSet && UnmaskedInUse(pci, vectors))
      && (pci.msiOn ==> interrupt in {None, Msi})
      && (interrupt == Msi ==> pci.msiOn)
      && (vectorsPtr == Stale <==> pci.msiOn && interrupt == None)
    }

    /** The mode the enable bits ask for. */
    function Selected(): Mode
      reads this
    {
      if pci.msixOn then Msix else if pci.msiOn then Msi else if pin > 0 then INTx else None
    }

    // A change of MSI-X masks: of one vector through the table, or of all of them
    // through the function mask.  The core changes the masks first and then reports
    // each vector that changed.
    method GuestMaskWrite(masked: seq<bool>)
      requires Valid() && Coherent() && MessagesCurrent() && pci.msixOn && |masked| == entries
      modifies `vectors, `nrVectors, `pendingBits, `pbaOn, `unsynced, `pci
      modifies kernel`ledger, kernel`messages, kernel`msixTriggers, kernel`faults, kernel`refusals
      ensures old(kernel.refusals) <= kernel.refusals
      ensures kernel.refusals == old(kernel.refusals) && old(KvmUsed()) ==> KvmUsed()
      ensures Valid() && Coherent() && MessagesCurrent() && pci == old(pci).(masked := masked)
      ensures old(kernel.faults) <= kernel.faults
      ensures kernel.faults == old(kernel.faults) && old(unsynced) == {} ==> unsynced == {}
    {
      hide Accounted, IntxSafe, MsiRouted, MsixRouted, Programmed, MessagesKept;
      var was := pci.masked;
      MasksChanged(vectors, was, masked, unsynced, kernel.msixTriggers);
      MasksReprogrammed(vectors, pci, masked, kernel.messages);
      pci := pci.(masked := masked);
      unsynced := unsynced + MaskChanges(vectors, was, masked);
      ReportMasks(was);
      AllReported(vectors, was, masked, unsynced);
    }

    // The core reports every vector whose mask has changed.
    method ReportMasks(was: seq<bool>)
      requires Valid() && interrupt == Msix && UsedUpTo(vectors, was, pci.masked, 0)
      requires Programmed(Msix, vectors, pci, kernel.messages, Unmasked(was, pci.masked))
      modifies `vectors, `nrVectors, `pendingBits, `pbaOn, `unsynced
      modifies kernel`ledger, kernel`messages, kernel`msixTriggers, kernel`faults, kernel`refusals
      ensures Valid() && MessagesCurrent() && UsedUpTo(vectors, was, pci.masked, entries)
      ensures old(kernel.faults) <= kernel.faults && old(kernel.refusals) <= kernel.refusals
      ensures kernel.refusals == old(kernel.refusals) && !noKvmMsix && RoutedUpTo(old(vectors), was, pci.masked, 0) ==>
                RoutedUpTo(vectors, was, pci.masked, entries)
      ensures kernel.faults == old(kernel.faults) && SyncedUpTo(old(vectors), was, pci.masked, old(unsynced), 0) ==>
                SyncedUpTo(vectors, was, pci.masked, unsynced, entries)
    {
      hide Accounted, IntxSafe, MsiRouted, MsixRouted, Programmed, MessagesKept, RoutedUpTo, SyncedUpTo;
      ghost var stale := Unmasked(was, pci.masked);
      for nr := 0 to entries
        invariant Valid() && UsedUpTo(vectors, was, pci.masked, nr)
        invariant Programmed(Msix, vectors, pci, kernel.messages, stale) && stale <= Unmasked(was, pci.masked)
        invariant forall i | i in stale :: nr <= i
        invariant old(kernel.faults) <= kernel.faults && old(kernel.refusals) <= kernel.refusals
        invariant kernel.refusals == old(kernel.refusals) && !noKvmMsix
                  && RoutedUpTo(old(vectors), was, pci.masked, 0) ==>
                    RoutedUpTo(vectors, was, pci.masked, nr)
        invariant kernel.faults == old(kernel.faults) && SyncedUpTo(old(vectors), was, pci.masked, old(unsynced), 0) ==>
                    SyncedUpTo(vectors, was, pci.masked, unsynced, nr)
      {
        ghost var before, unsyncedBefore := vectors, unsynced;
        if pci.masked[nr] != was[nr] {
          ReportMask(nr, stale);
          stale := stale - {nr};
        }
        ReportedOne(before, vectors, was, pci.masked, nr);
        if SyncedUpTo(before, was, pci.masked, unsyncedBefore, nr) && unsynced <= unsyncedBefore
           && (pci.masked[nr] == was[nr] || (before[nr].Bypassed() ==> nr !in unsynced)) {
          SyncedOne(before, vectors, was, pci.masked, unsyncedBefore, unsynced, nr);
        }
      }
      assert stale == {};
    }

    // The core reports one vector whose mask has changed.
    method ReportMask(nr: nat, ghost stale: set<nat>)
      requires Valid() && interrupt == Msix && nr < entries && (pci.masked[nr] ==> vectors[nr].inUse)
      requires Programmed(Msix, vectors, pci, kernel.messages, stale) && (pci.masked[nr] ==> nr !in stale)
      modifies `vectors, `nrVectors, `pendingBits, `pbaOn, `unsynced
      modifies kernel`ledger, kernel`messages, kernel`msixTriggers, kernel`faults, kernel`refusals
      ensures old(kernel.refusals) <= kernel.refusals
      ensures Valid() && |vectors| == |old(vectors)| && vectors == old(vectors)[nr := vectors[nr]] && vectors[nr].inUse
      ensures Programmed(Msix, vectors, pci, kernel.messages, stale - {nr})
      ensures old(kernel.faults) <= kernel.faults
      ensures kernel.faults == old(kernel.faults) ==>
                unsynced <= old(unsynced) && (old(vectors)[nr].Bypassed() ==> nr !in unsynced)
      ensures kernel.refusals == old(kernel.refusals) && !noKvmMsix && !pci.masked[nr] ==> vectors[nr].Bypassed()
    {
      hide Accounted, IntxSafe, MsiRouted, MsixRouted, Programmed, MessagesKept;
      if pci.masked[nr] {
        MsixVectorRelease(nr);
        assert nr !in stale ==> stale - {nr} == stale;
      } else {
        ghost var before, messages := vectors, kernel.messages;
        MsixVectorDoUse(nr, true);
        VectorProgrammed(before, vectors, pci, messages, kernel.messages, stale, nr);
      }
    }

    // The guest writes MSI-X table entries.  Changing one that is unmasked has no defined
    // result, so only masked ones change here.
    method GuestTableWrite(table: seq<int>)
      requires Valid() && Coherent() && MessagesCurrent() && |table| == entries
      requires forall i | 0 <= i < entries && !pci.masked[i] :: table[i] == pci.table[i]
      modifies `pci
      ensures old(KvmUsed()) ==> KvmUsed()
      ensures Valid() && Coherent() && MessagesCurrent() && pci == old(pci).(table := table)
    {
      hide Accounted, MsiRouted, MsixRouted, Programmed;
      if interrupt == Msix {
        TableRewritten(vectors, pci, table, kernel.messages);
      } else {
        TableUnused(interrupt, vectors, pci, table, kernel.messages);
      }
      pci := pci.(table := table);
    }

    /** A naturally aligned write that turns on at most one of the two enable bits, and
        whose effect on a capability shows only if it touches that capability. */
    predicate Admissible(w: ConfigWrite)
      reads this
    {
      && w.len in {1, 2, 4} && w.addr % w.len == 0
      && |w.masked| == entries && w.msiCount > 0 && !(w.msiOn && w.msixOn)
      && (w.msiOn != pci.msiOn || w.msiBase != pci.msiBase ==> layout.TouchesMsi(w.addr, w.len))
      && (w.msixOn != pci.msixOn || w.masked != pci.masked ==> layout.TouchesMsix(w.addr, w.len))
    }

    // vfio_pci_write_config
    method WriteConfig(w: ConfigWrite)
      requires Valid() && Coherent() && MessagesCurrent() && Admissible(w)
      modifies this, kernel
      ensures old(kernel.refusals) <= kernel.refusals
      ensures kernel.refusals == old(kernel.refusals) && old(KvmUsed()) ==> KvmUsed()
      ensures Valid() && Coherent() && MessagesCurrent()
      ensures pci.msiOn == w.msiOn && pci.msixOn == w.msixOn && pci.masked == w.masked && pci.msiBase == w.msiBase
      ensures old(kernel.faults) <= kernel.faults
      ensures old(pci.msiOn == w.msiOn && pci.msixOn == w.msixOn) ==> interrupt == old(interrupt)
      ensures !old(pci.msiOn == w.msiOn && pci.msixOn == w.msixOn) && kernel.faults == old(kernel.faults) ==>
                interrupt == Selected()
      ensures kernel.faults == old(kernel.faults) && old(unsynced) == {} ==> unsynced == {}
      ensures kernel.refusesMsi && w.msiOn && !old(pci).msiOn ==> interrupt == None
      // msi_vectors is freed a second time exactly when the guest turns MSI off again
      // after the host refused it.
      ensures staleFrees == old(staleFrees) + if old(pci.msiOn && interrupt == None) && !w.msiOn then 1 else 0
    {
      AlignedAccessTouchesOne(w.addr, w.len, layout.msiCap, layout.msiCapSize, layout.msixCap, MSIX_CAP_LENGTH);
      if layout.TouchesMsi(w.addr, w.len) {
        WriteMsi(w);
      } else if layout.TouchesMsix(w.addr, w.len) {
        WriteMsix(w);
      }
    }

    // The MSI branch of vfio_pci_write_config.
    method WriteMsi(w: ConfigWrite)
      requires Valid() && Coherent() && MessagesCurrent() && w.msiCount > 0
      requires pci.msixOn == w.msixOn && pci.masked == w.masked && !(w.msiOn && w.msixOn)
      modifies this, kernel
      ensures old(kernel.refusals) <= kernel.refusals
      ensures kernel.refusals == old(kernel.refusals) && old(KvmUsed()) ==> KvmUsed()
      ensures Valid() && Coherent() && MessagesCurrent()
      ensures pci.msiOn == w.msiOn && pci.msixOn == w.msixOn && pci.masked == w.masked && pci.msiBase == w.msiBase
      ensures old(kernel.faults) <= kernel.faults
      ensures old(pci.msiOn) == w.msiOn ==> interrupt == old(interrupt)
      ensures old(pci.msiOn) != w.msiOn && kernel.faults == old(kernel.faults) ==> interrupt == Selected()
      ensures kernel.faults == old(kernel.faults) && old(unsynced) == {} ==> unsynced == {}
      ensures kernel.refusesMsi && w.msiOn && !old(pci).msiOn ==> interrupt == None
      ensures staleFrees == old(staleFrees) + if old(pci.msiOn && interrupt == None) && !w.msiOn then 1 else 0
    {
      hide Accounted, MsiRouted, MsixRouted, Programmed;
      var wasEnabled := pci.msiOn;
      BaseUnused(interrupt, vectors, pci, w.msiOn, w.msiBase, kernel.messages);
      pci := pci.(msiOn := w.msiOn, msiBase := w.msiBase);
      if !wasEnabled {
        if pci.msiOn {
          MsiEnable(w.msiCount);
        }
      } else {
        if !pci.msiOn {
          MsiDisable();
          NothingProgrammed(interrupt, vectors, pci, kernel.messages);
        } else {
          UpdateMsi();
        }
      }
    }

    // The MSI-X branch of vfio_pci_write_config.
    method WriteMsix(w: ConfigWrite)
      requires Valid() && Coherent() && MessagesCurrent() && entries > 0 && |w.masked| == entries
      requires pci.msiOn == w.msiOn && pci.msiBase == w.msiBase && !(w.msiOn && w.msixOn)
      modifies this, kernel
      ensures old(kernel.refusals) <= kernel.refusals
      ensures kernel.refusals == old(kernel.refusals) && old(KvmUsed()) ==> KvmUsed()
      ensures Valid() && Coherent() && MessagesCurrent()
      ensures pci.msiOn == w.msiOn && pci.msixOn == w.msixOn && pci.masked == w.masked && pci.msiBase == w.msiBase
      ensures old(kernel.faults) <= kernel.faults && staleFrees == old(staleFrees)
      ensures old(pci.msixOn) == w.msixOn ==> interrupt == old(interrupt)
      ensures old(pci.msixOn) != w.msixOn && kernel.faults == old(kernel.faults) ==> interrupt == Selected()
      ensures kernel.faults == old(kernel.faults) && old(unsynced) == {} ==> unsynced == {}
    {
      hide Accounted, MsiRouted, MsixRouted, Programmed;
      var wasEnabled := pci.msixOn;
      if wasEnabled && w.msixOn {
        GuestMaskWrite(w.masked);
      } else if wasEnabled {
        MasksChanged(vectors, pci.masked, w.masked, unsynced, kernel.msixTriggers);
        unsynced := unsynced + MaskChanges(vectors, pci.masked, w.masked);
        pci := pci.(msixOn := false, masked := w.masked);
        MsixDisable();
        NothingProgrammed(interrupt, vectors, pci, kernel.messages);
      } else {
        NoMsixTriggers(interrupt);
        MasksUnused(interrupt, vectors, pci, w.msixOn, w.masked, kernel.messages);
        pci := pci.(msixOn := w.msixOn, masked := w.masked);
        NoMsix(interrupt);
        if w.msixOn {
          MsixEnable();
        }
      }
    }

    // Whole runs ------------------------------------------------------------------------

    /** Can this event happen now? */
    predicate Possible(e: Event)
      reads this, kernel
    {
      match e
      case GuestConfigWrite(w) => Admissible(w)
      case GuestMasks(masked) => pci.msixOn && |masked| == entries
      case GuestTableWrite(table) =>
        && |table| == |pci.masked| == |pci.table| == entries
        && forall i | 0 <= i < entries && !pci.masked[i] :: table[i] == pci.table[i]
      case GuestReroutesIntx(_) => true
      case GuestAccessesBar => true
      case DeviceRaisesIntx => true
      case IntxEventfdReady => interrupt == INTx && intx.interrupt in kernel.ledger.handlers
      case MmapTimerExpires => intx.timerArmed
      case VectorEventfdReady(nr, _) =>
        nr < |vectors| && vectors[nr].inUse && vectors[nr].interrupt in kernel.ledger.handlers
    }

    method Step(e: Event)
      requires Valid() && Coherent() && MessagesCurrent() && Possible(e)
      modifies this, kernel
      ensures old(kernel.refusals) <= kernel.refusals
      ensures kernel.refusals == old(kernel.refusals) && old(KvmUsed()) ==> KvmUsed()
      ensures Valid() && Coherent() && MessagesCurrent() && old(kernel.faults) <= kernel.faults
      ensures kernel.faults == old(kernel.faults) && old(InStep()) ==> InStep()
    {
      hide Accounted, MsiRouted, MsixRouted, Programmed;
      match e
      case GuestConfigWrite(w) => WriteConfig(w);
      case GuestMasks(masked) => GuestMaskWrite(masked);
      case GuestTableWrite(table) => GuestTableWrite(table);
      case GuestReroutesIntx(route) => IntxUpdate(route);
      case GuestAccessesBar => IntxEoi();
      case DeviceRaisesIntx => kernel.DeviceRaisesIntx();
      case IntxEventfdReady => IntxInterrupt();
      case MmapTimerExpires => IntxMmapEnable();
      case VectorEventfdReady(nr, signaled) => MsiInterrupt(nr, signaled);
    }

    /** The mode is the one the enable bits select and every MSI-X trigger is up to date. */
    ghost predicate InStep()
      reads this
    {
      interrupt == Selected() && unsynced == {}
    }

    /** Over any run of events the device agrees with the host and KVM delivers what the
        guest has programmed, and as long as no host call that sets up a trigger fails it
        stays in step with the guest. */
    method Run(events: seq<Event>)
      requires Valid() && Coherent() && MessagesCurrent()
      modifies this, kernel
      ensures old(kernel.refusals) <= kernel.refusals
      ensures kernel.refusals == old(kernel.refusals) && old(KvmUsed()) ==> KvmUsed()
      ensures Valid() && Coherent() && MessagesCurrent() && old(kernel.faults) <= kernel.faults
      ensures kernel.faults == old(kernel.faults) && old(InStep()) ==> InStep()
    {
      hide Accounted, MsiRouted, MsixRouted, Programmed;
      for i := 0 to |events|
        invariant Valid() && Coherent() && MessagesCurrent() && old(kernel.faults) <= kernel.faults
        invariant old(kernel.refusals) <= kernel.refusals
        invariant kernel.refusals == old(kernel.refusals) && old(KvmUsed()) ==> KvmUsed()
        invariant kernel.faults == old(kernel.faults) && old(InStep()) ==> InStep()
      {
        if Possible(events[i]) {
          Step(events[i]);
        }
      }
    }

    /** vfio_exitfn, after any run, leaves nothing behind. */
    method RunAndExit(events: seq<Event>)
      requires Valid() && Coherent() && MessagesCurrent()
      modifies this, kernel
      ensures kernel.Idle() && interrupt == None && vectors == [] && nrVectors == 0
    {
      hide Accounted, MsiRouted, MsixRouted, Programmed;
      Run(events);
      DisableInterrupts();
    }
  }

  /** The second free happens: a host that refuses MSI, and a guest that turns MSI on and
      off again. */
  method RefusedMsiIsFreedTwice(d: VfioDevice, on: ConfigWrite, off: ConfigWrite)
    requires d.Valid() && d.Coherent() && d.MessagesCurrent() && d.kernel.refusesMsi
    requires d.layout.hasMsi && d.layout.TouchesMsi(on.addr, on.len) && off == on.(msiOn := false)
    requires on.msiOn && !d.pci.msiOn && d.Admissible(on)
    modifies d, d.kernel
    ensures d.staleFrees == old(d.staleFrees) + 1
  {
    d.WriteConfig(on);
    d.WriteConfig(off);
  }

  /** Such a host and such a guest exist. */
  method FreedTwiceFromTheStart() returns (d: VfioDevice)
    ensures d.staleFrees == 1
  {
    var kernel := new Kernel(true);
    d := new VfioDevice(kernel, 1, 0, 0, false, false, false, true, CapLayout(true, 0x50, 10, false, 0x60));
    var on := ConfigWrite(0x50, 4, true, false, d.pci.masked, 1, 0);
    RefusedMsiIsFreedTwice(d, on, on.(msiOn := false));
  }
}
