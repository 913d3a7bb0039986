/** The values an assigned device keeps about its interrupts, what it means for them to
    agree with the host, and how each elementary step keeps them in agreement. */
module VfioState {
  import opened HostKernel

  datatype Mode = None | INTx | Msi | Msix

  // One entry of msi_vectors.  A zeroed entry has virq 0, so virq alone does not say
  // whether a KVM route exists; inUse has to be asked as well.
  datatype Vector = Vector(inUse: bool, virq: int, interrupt: int, kvmInterrupt: int) {
    predicate Bypassed() { inUse && virq >= 0 }

    // The eventfd the host should signal, given whether QEMU must see the interrupt.
    function Trigger(viaQemu: bool): int {
      if !inUse then NO_FD else if virq < 0 || viaQemu then interrupt else kvmInterrupt
    }
  }

  const ZEROED := Vector(false, 0, 0, 0)

  // What the msi_vectors pointer holds.
  datatype Pointer = Null | Allocated | Stale

  datatype IntxRoute = IntxRoute(enabled: bool, irq: int)

  // VFIOINTx, with the guest's INTx line and the state of the BAR mmaps.
  datatype IntxState = IntxState(interrupt: int, unmask: int, pending: bool, kvmAccel: bool, route: IntxRoute,
                                 timerArmed: bool, lineAsserted: bool, mmapsOn: bool)

  // The emulated MSI and MSI-X capabilities: enable bits, effective vector masks,
  // whether the vector callbacks are installed, the MSI message and the MSI-X table.
  datatype PciState = PciState(msiOn: bool, msixOn: bool, masked: seq<bool>, notifiersSet: bool, msiBase: int,
                               table: seq<int>)

  function IntxOwned(mode: Mode, intx: IntxState): IntxOwner {
    IntxOwner(if mode == INTx then intx.interrupt else NO_FD, if intx.kvmAccel then intx.unmask else NO_FD)
  }

  /** INTx safety: `pending` is the guest line, a pending interrupt keeps the mmaps off,
      mmaps that are off come back by timer, the INTx eventfd has a listener unless KVM
      is that listener, and a device that VFIO masked is never left with nobody to
      unmask it. */
  predicate IntxSafe(mode: Mode, intx: IntxState, irq: IntxIrq, handlers: set<int>, mmapTimeout: nat) {
    && LineSafe(mode, intx, irq, handlers)
    && (!intx.mmapsOn && mmapTimeout > 0 ==> intx.timerArmed)
    && (mode != INTx ==> intx.mmapsOn && !intx.timerArmed)
  }

  predicate LineSafe(mode: Mode, intx: IntxState, irq: IntxIrq, handlers: set<int>) {
    && intx.pending == intx.lineAsserted
    && (intx.pending ==> !intx.mmapsOn)
    && (intx.kvmAccel ==> mode == INTx && !intx.pending && intx.unmask >= 0 && intx.unmask !in handlers)
    && (if mode == INTx then
          && intx.interrupt >= 0 && irq.trigger == intx.interrupt
          && (intx.interrupt in handlers <==> !intx.kvmAccel)
          && (!intx.kvmAccel && irq.masked ==> intx.pending || irq.signaled)
          && BypassedBy(intx, irq)
        else irq == NO_IRQ)
  }

  /** KVM has the INTx eventfd exactly when `kvm_accel` is set, for the interrupt of the
      present route and with the eventfd that VFIO unmasks on.  The exception is an irqfd
      that KVM refused to give up: then `kvm_accel` is off until the eventfd is closed. */
  predicate BypassedBy(intx: IntxState, irq: IntxIrq) {
    && irq.unmask == (if intx.kvmAccel then intx.unmask else NO_FD)
    && irq.stuck <= {intx.interrupt}
    && (if intx.kvmAccel then
          irq.stuck == {} && irq.irqfds == map[intx.interrupt := IntxIrqfd(intx.route.irq, intx.unmask)]
        else irq.irqfds.Keys == irq.stuck)
  }

  /** The shape of msi_vectors in each mode; a vector in use is below nrVectors. */
  predicate Shaped(mode: Mode, vectors: seq<Vector>, nrVectors: nat, ptr: Pointer, pci: PciState, entries: nat) {
    && |pci.masked| == |pci.table| == entries
    && (ptr == Allocated <==> mode in {Msi, Msix})
    && (pci.notifiersSet ==> mode == Msix)
    && match mode
       case None => vectors == [] && nrVectors == 0
       case INTx => vectors == [] && nrVectors == 0
       case Msi => nrVectors == |vectors| && forall i | 0 <= i < |vectors| :: vectors[i].inUse
       case Msix => nrVectors <= |vectors| == entries && UsedBelow(vectors, nrVectors)
  }

  predicate UsedBelow(vectors: seq<Vector>, bound: nat) {
    forall i | 0 <= i < |vectors| && vectors[i].inUse :: i < bound
  }

  predicate UnmaskedInUse(pci: PciState, vectors: seq<Vector>) {
    pci.notifiersSet ==>
      |pci.masked| == |vectors| && forall i | 0 <= i < |vectors| && !pci.masked[i] :: vectors[i].inUse
  }

  // Ownership --------------------------------------------------------------------------

  // The owners on the INTx side: the trigger eventfd if there is one, and the eventfd
  // KVM unmasks through if there is one.
  datatype IntxOwner = IntxOwner(trigger: int, unmask: int)

  /** Every live eventfd, route and irqfd has exactly one owner in the device, and every
      owner's eventfd, route and irqfd is live. */
  ghost predicate Accounted(intx: IntxOwner, vectors: seq<Vector>, l: Ledger) {
    && (forall fd | fd in l.eventfds :: fd >= 0 && Owns(intx, vectors, fd, l.eventfds[fd]))
    && (intx.trigger >= 0 ==> intx.trigger in l.eventfds && l.eventfds[intx.trigger] == IntxTrigger)
    && (intx.unmask >= 0 ==> intx.unmask in l.eventfds && l.eventfds[intx.unmask] == IntxUnmask)
    && (forall i: nat | i < |vectors| && vectors[i].inUse :: HoldsTrigger(i, vectors[i], l))
    && (forall i: nat | i < |vectors| && vectors[i].Bypassed() :: HoldsBypass(i, vectors[i], l))
    && (forall virq | virq in l.routes :: OwnsRoute(vectors, virq, l.routes[virq]))
    && (forall fd | fd in l.bindings :: fd in l.eventfds && l.eventfds[fd].VectorBypass?)
    && (forall fd | fd in l.handlers :: fd in l.eventfds && !l.eventfds[fd].VectorBypass?)
  }

  ghost predicate Owns(intx: IntxOwner, vectors: seq<Vector>, fd: int, purpose: Purpose) {
    match purpose
    case IntxTrigger => fd == intx.trigger
    case IntxUnmask => fd == intx.unmask
    case VectorTrigger(i) => i < |vectors| && vectors[i].inUse && vectors[i].interrupt == fd
    case VectorBypass(i) => i < |vectors| && vectors[i].Bypassed() && vectors[i].kvmInterrupt == fd
  }

  ghost predicate OwnsRoute(vectors: seq<Vector>, virq: int, i: nat) {
    i < |vectors| && vectors[i].Bypassed() && vectors[i].virq == virq
  }

  ghost predicate HoldsTrigger(i: nat, v: Vector, l: Ledger) {
    v.interrupt in l.eventfds && l.eventfds[v.interrupt] == VectorTrigger(i)
  }

  ghost predicate HoldsBypass(i: nat, v: Vector, l: Ledger) {
    && v.kvmInterrupt in l.eventfds && l.eventfds[v.kvmInterrupt] == VectorBypass(i)
    && v.virq in l.routes && l.routes[v.virq] == i
    && v.kvmInterrupt in l.bindings && l.bindings[v.kvmInterrupt] == v.virq
  }

  lemma FreshEventfd(intx: IntxOwner, vectors: seq<Vector>, l: Ledger, fd: int)
    requires Accounted(intx, vectors, l) && fd !in l.eventfds
    ensures fd !in l.bindings && fd !in l.handlers
  {
  }

  lemma HandlerAccounted(intx: IntxOwner, vectors: seq<Vector>, l: Ledger, fd: int, install: bool)
    requires Accounted(intx, vectors, l)
    requires fd in l.eventfds && !l.eventfds[fd].VectorBypass?
    ensures Accounted(intx, vectors, l.(handlers := if install then l.handlers + {fd} else l.handlers - {fd}))
  {
  }

  lemma VectorHolds(intx: IntxOwner, vectors: seq<Vector>, l: Ledger, i: nat)
    requires Accounted(intx, vectors, l) && i < |vectors| && vectors[i].inUse
    ensures HoldsTrigger(i, vectors[i], l) && vectors[i].interrupt !in l.bindings
    ensures vectors[i].virq >= 0 ==> HoldsBypass(i, vectors[i], l) && vectors[i].kvmInterrupt !in l.handlers
  {
  }

  lemma LiveVectorFd(intx: IntxOwner, vectors: seq<Vector>, l: Ledger, i: nat)
    requires Accounted(intx, vectors, l) && i < |vectors| && vectors[i].inUse
    ensures vectors[i].interrupt >= 0
  {
    assert HoldsTrigger(i, vectors[i], l);
  }

  /** When the resources of a vector are live: its QEMU eventfd exactly when it is in use,
      its KVM eventfd and its route exactly when it is in use and `virq >= 0`. */
  lemma LiveExactly(intx: IntxOwner, vectors: seq<Vector>, l: Ledger, i: nat)
    requires Accounted(intx, vectors, l) && i < |vectors|
    ensures (exists fd :: fd in l.eventfds && l.eventfds[fd] == VectorTrigger(i)) <==> vectors[i].inUse
    ensures (exists fd :: fd in l.eventfds && l.eventfds[fd] == VectorBypass(i))
         <==> vectors[i].inUse && vectors[i].virq >= 0
    ensures (exists virq :: virq in l.routes && l.routes[virq] == i) <==> vectors[i].inUse && vectors[i].virq >= 0
  {
    if vectors[i].inUse {
      VectorHolds(intx, vectors, l, i);
    }
    if fd :| fd in l.eventfds && l.eventfds[fd] == VectorTrigger(i) {
      assert Owns(intx, vectors, fd, l.eventfds[fd]);
    }
    if fd :| fd in l.eventfds && l.eventfds[fd] == VectorBypass(i) {
      assert Owns(intx, vectors, fd, l.eventfds[fd]);
    }
    if virq :| virq in l.routes && l.routes[virq] == i {
      assert OwnsRoute(vectors, virq, l.routes[virq]);
    }
  }

  /** So `virq >= 0` alone does not tell: a fresh entry has it and owns no route. */
  lemma FreshEntryHasNoRoute(intx: IntxOwner, vectors: seq<Vector>, l: Ledger, i: nat)
    requires Accounted(intx, vectors, l) && i < |vectors| && vectors[i] == ZEROED
    ensures vectors[i].virq >= 0 && forall virq | virq in l.routes :: l.routes[virq] != i
  {
    LiveExactly(intx, vectors, l, i);
  }

  /** KVM has the INTx eventfd exactly when `kvm_accel` is set or KVM refused to give it up. */
  lemma KvmListensExactly(intx: IntxState, irq: IntxIrq)
    requires BypassedBy(intx, irq)
    ensures intx.interrupt in irq.irqfds <==> intx.kvmAccel || irq.stuck != {}
    ensures irq.stuck != {} ==> !intx.kvmAccel
    ensures irq.stuck == {} ==>
              irq.irqfds
              == if intx.kvmAccel then map[intx.interrupt := IntxIrqfd(intx.route.irq, intx.unmask)] else map[]
  {
    if irq.stuck == {} && !intx.kvmAccel {
      assert irq.irqfds.Keys == {};
    }
  }

  // KVM has taken the eventfd; VFIO's side of it may follow, or KVM gives it back or not.
  lemma BypassAssigned(intx: IntxState, irq: IntxIrq, fd: int)
    requires BypassedBy(intx, irq) && !intx.kvmAccel && intx.interrupt !in irq.irqfds
    ensures var taken := irq.(irqfds := irq.irqfds[intx.interrupt := IntxIrqfd(intx.route.irq, fd)]);
            && irq.stuck == {}
            && BypassedBy(intx.(unmask := fd, kvmAccel := true), taken.(unmask := fd))
            && BypassedBy(intx, taken.(irqfds := taken.irqfds - {intx.interrupt}))
            && BypassedBy(intx, taken.(stuck := taken.stuck + {intx.interrupt}))
  {
    KvmListensExactly(intx, irq);
  }

  lemma BypassUndone(intx: IntxState, irq: IntxIrq, fd: int)
    requires BypassedBy(intx, irq) && !intx.kvmAccel && fd != intx.interrupt
    ensures irq.irqfds - {fd} == irq.irqfds && irq.stuck - {fd} == irq.stuck
    ensures BypassedBy(intx, irq.(unmask := NO_FD)) && irq.unmask == NO_FD
  {
    assert fd !in irq.irqfds;
  }

  lemma UseVector(intx: IntxOwner, vectors: seq<Vector>, l: Ledger, i: nat, fd: int)
    requires Accounted(intx, vectors, l) && i < |vectors| && !vectors[i].inUse
    requires fd >= 0 && fd !in l.eventfds
    ensures Accounted(intx, vectors[i := vectors[i].(inUse := true, virq := -1, interrupt := fd)],
                      l.(eventfds := l.eventfds[fd := VectorTrigger(i)]))
  {
  }

  lemma RouteVector(intx: IntxOwner, vectors: seq<Vector>, l: Ledger, i: nat, fd: int, virq: int)
    requires Accounted(intx, vectors, l) && i < |vectors| && vectors[i].inUse && vectors[i].virq < 0
    requires fd >= 0 && fd !in l.eventfds && virq >= 0 && virq !in l.routes
    ensures Accounted(intx, vectors[i := vectors[i].(virq := virq, kvmInterrupt := fd)],
                      l.(eventfds := l.eventfds[fd := VectorBypass(i)], routes := l.routes[virq := i],
                         bindings := l.bindings[fd := virq]))
  {
  }

  lemma UnrouteVector(intx: IntxOwner, vectors: seq<Vector>, l: Ledger, i: nat)
    requires Accounted(intx, vectors, l) && i < |vectors| && vectors[i].Bypassed()
    ensures var v := vectors[i];
            Accounted(intx, vectors[i := v.(virq := -1)],
                      l.(eventfds := l.eventfds - {v.kvmInterrupt}, routes := l.routes - {v.virq},
                         bindings := l.bindings - {v.kvmInterrupt}))
  {
  }

  lemma DropVector(intx: IntxOwner, vectors: seq<Vector>, l: Ledger, i: nat)
    requires Accounted(intx, vectors, l) && i < |vectors| && vectors[i].inUse && vectors[i].virq < 0
    requires vectors[i].interrupt !in l.handlers
    ensures Accounted(intx, vectors[i := vectors[i].(inUse := false)],
                      l.(eventfds := l.eventfds - {vectors[i].interrupt}))
  {
  }

  lemma UnusedVectors(intx: IntxOwner, vectors: seq<Vector>, vectors': seq<Vector>, l: Ledger)
    requires Accounted(intx, vectors, l)
    requires UsedBelow(vectors, 0) && UsedBelow(vectors', 0)
    ensures Accounted(intx, vectors', l)
  {
  }

  lemma GainIntxTrigger(intx: IntxOwner, vectors: seq<Vector>, l: Ledger, fd: int)
    requires Accounted(intx, vectors, l) && intx.trigger < 0 && fd >= 0 && fd !in l.eventfds
    ensures Accounted(intx.(trigger := fd), vectors, l.(eventfds := l.eventfds[fd := IntxTrigger]))
  {
  }

  lemma IntxTriggerHeld(intx: IntxOwner, vectors: seq<Vector>, l: Ledger)
    requires Accounted(intx, vectors, l) && intx.trigger >= 0
    ensures intx.trigger in l.eventfds && intx.trigger !in l.bindings && l.eventfds[intx.trigger] == IntxTrigger
  {
  }

  lemma LoseIntxTrigger(intx: IntxOwner, vectors: seq<Vector>, l: Ledger)
    requires Accounted(intx, vectors, l) && intx.trigger >= 0 && intx.trigger !in l.handlers
    ensures Accounted(intx.(trigger := NO_FD), vectors, l.(eventfds := l.eventfds - {intx.trigger}))
  {
  }

  lemma GainIntxUnmask(intx: IntxOwner, vectors: seq<Vector>, l: Ledger, fd: int)
    requires Accounted(intx, vectors, l) && intx.unmask < 0 && fd >= 0 && fd !in l.eventfds
    ensures Accounted(intx.(unmask := fd), vectors, l.(eventfds := l.eventfds[fd := IntxUnmask]))
  {
  }

  lemma LoseIntxUnmask(intx: IntxOwner, vectors: seq<Vector>, l: Ledger)
    requires Accounted(intx, vectors, l) && intx.unmask >= 0 && intx.unmask !in l.handlers
    ensures intx.unmask in l.eventfds && intx.unmask !in l.bindings
    ensures Accounted(intx.(unmask := NO_FD), vectors, l.(eventfds := l.eventfds - {intx.unmask}))
  {
  }

  /** A device without owners holds nothing. */
  lemma NoOwnersHoldNothing(vectors: seq<Vector>, l: Ledger)
    requires Accounted(IntxOwner(NO_FD, NO_FD), vectors, l) && UsedBelow(vectors, 0)
    ensures l == EMPTY
  {
    assert forall fd :: fd !in l.eventfds;
    assert forall virq :: virq !in l.routes;
    assert forall fd :: fd !in l.bindings;
    assert forall fd :: fd !in l.handlers;
    assert l.eventfds == map[] && l.routes == map[] && l.bindings == map[] && l.handlers == {};
  }

  // Messages -----------------------------------------------------------------------------

  ghost predicate Carries(v: Vector, messages: map<int, Message>, m: Message) {
    v.virq in messages && messages[v.virq] == m
  }

  /** Every KVM route delivers the message the guest has programmed, for MSI-X unless the
      vector is masked or in stale. */
  ghost predicate Programmed(mode: Mode, vectors: seq<Vector>, pci: PciState, messages: map<int, Message>,
                             stale: set<nat>) {
    && (mode == Msi ==>
          forall i: nat | i < |vectors| && vectors[i].Bypassed() ::
            Carries(vectors[i], messages, MsiMessage(pci.msiBase, i)))
    && (mode == Msix ==>
          && |pci.masked| == |pci.table| == |vectors|
          && forall i: nat | i < |vectors| && vectors[i].Bypassed() && !pci.masked[i] && i !in stale ::
               Carries(vectors[i], messages, TableEntry(pci.table[i])))
  }

  // The routes of all vectors but nr deliver what they did.
  ghost predicate MessagesKept(vectors: seq<Vector>, before: map<int, Message>, after: map<int, Message>, nr: nat) {
    forall j: nat | j < |vectors| && j != nr && vectors[j].Bypassed() && vectors[j].virq in before ::
      vectors[j].virq in after && after[vectors[j].virq] == before[vectors[j].virq]
  }

  // No other vector has the route of vector nr, nor one that does not exist.
  lemma RouteNotShared(intx: IntxOwner, vectors: seq<Vector>, l: Ledger, nr: nat, virq: int,
                       messages: map<int, Message>, m: Message)
    requires Accounted(intx, vectors, l) && (virq in l.routes ==> l.routes[virq] == nr)
    ensures MessagesKept(vectors, messages, messages[virq := m], nr)
  {
    forall j: nat | j < |vectors| && j != nr && vectors[j].Bypassed()
      ensures vectors[j].virq != virq
    {
      VectorHolds(intx, vectors, l, j);
    }
  }

  // Whether they are kept does not depend on vector nr.
  lemma KeptByOthers(vectors: seq<Vector>, vectors': seq<Vector>, before: map<int, Message>, after: map<int, Message>,
                     nr: nat)
    requires nr < |vectors| == |vectors'| && vectors' == vectors[nr := vectors'[nr]]
    requires MessagesKept(vectors, before, after, nr)
    ensures MessagesKept(vectors', before, after, nr)
  {
  }

  lemma SameMessagesKept(vectors: seq<Vector>, messages: map<int, Message>, nr: nat)
    ensures MessagesKept(vectors, messages, messages, nr)
  {
  }

  // Vector nr has been given the guest's message, or has no route.
  lemma VectorProgrammed(vectors: seq<Vector>, vectors': seq<Vector>, pci: PciState, before: map<int, Message>,
                         after: map<int, Message>, stale: set<nat>, nr: nat)
    requires Programmed(Msix, vectors, pci, before, stale)
    requires nr < |vectors| == |vectors'| && vectors' == vectors[nr := vectors'[nr]]
    requires MessagesKept(vectors', before, after, nr)
    requires vectors'[nr].Bypassed() ==> Carries(vectors'[nr], after, TableEntry(pci.table[nr]))
    ensures Programmed(Msix, vectors', pci, after, stale - {nr})
  {
    forall i: nat | i < |vectors'| && vectors'[i].Bypassed() && !pci.masked[i] && i !in stale - {nr}
      ensures Carries(vectors'[i], after, TableEntry(pci.table[i]))
    {
      assert i != nr ==> Carries(vectors[i], before, TableEntry(pci.table[i]));
    }
  }

  lemma MsiVectorProgrammed(vectors: seq<Vector>, vectors': seq<Vector>, pci: PciState, before: map<int, Message>,
                            after: map<int, Message>, nr: nat)
    requires Programmed(Msi, vectors, pci, before, {})
    requires nr < |vectors| == |vectors'| && vectors' == vectors[nr := vectors'[nr]]
    requires MessagesKept(vectors', before, after, nr)
    requires vectors'[nr].Bypassed() ==> Carries(vectors'[nr], after, MsiMessage(pci.msiBase, nr))
    ensures Programmed(Msi, vectors', pci, after, {})
  {
    forall i: nat | i < |vectors'| && vectors'[i].Bypassed()
      ensures Carries(vectors'[i], after, MsiMessage(pci.msiBase, i))
    {
      assert i != nr ==> Carries(vectors[i], before, MsiMessage(pci.msiBase, i));
    }
  }

  lemma OneMoreProgrammed(vectors: seq<Vector>, pci: PciState, before: map<int, Message>, after: map<int, Message>,
                          nr: nat)
    requires nr < |vectors| && Programmed(Msi, vectors[..nr], pci, before, {})
    requires MessagesKept(vectors, before, after, nr)
    requires vectors[nr].Bypassed() ==> Carries(vectors[nr], after, MsiMessage(pci.msiBase, nr))
    ensures Programmed(Msi, vectors[..nr + 1], pci, after, {})
  {
    forall i: nat | i < nr + 1 && vectors[..nr + 1][i].Bypassed()
      ensures Carries(vectors[i], after, MsiMessage(pci.msiBase, i))
    {
      assert i != nr ==> Carries(vectors[..nr][i], before, MsiMessage(pci.msiBase, i));
    }
  }

  lemma AllProgrammed(mode: Mode, vectors: seq<Vector>, pci: PciState, messages: map<int, Message>)
    requires mode in {None, Msi} && Programmed(Msi, vectors[..|vectors|], pci, messages, {})
    ensures Programmed(mode, vectors, pci, messages, {})
  {
    assert vectors[..|vectors|] == vectors;
  }

  // The notifiers and the enable bits are not part of a message.
  lemma NotifiersAside(mode: Mode, vectors: seq<Vector>, pci: PciState, pci': PciState, messages: map<int, Message>,
                       stale: set<nat>)
    requires Programmed(mode, vectors, pci, messages, stale)
    requires pci'.masked == pci.masked && pci'.table == pci.table && pci'.msiBase == pci.msiBase
    ensures Programmed(mode, vectors, pci', messages, stale)
  {
  }

  // New masks: the vectors that are unmasked by them may have an old message.
  lemma MasksReprogrammed(vectors: seq<Vector>, pci: PciState, masked: seq<bool>, messages: map<int, Message>)
    requires Programmed(Msix, vectors, pci, messages, {}) && |masked| == |vectors|
    ensures Programmed(Msix, vectors, pci.(masked := masked), messages, Unmasked(pci.masked, masked))
  {
  }

  ghost function Unmasked(was: seq<bool>, masked: seq<bool>): set<nat>
    requires |was| == |masked|
  {
    set i: nat | i < |masked| && was[i] && !masked[i]
  }

  // While new masks are reported one by one, up to nr: what is in use, what is routed
  // through KVM, and what may have an old trigger.

  predicate UsedUpTo(vectors: seq<Vector>, was: seq<bool>, masked: seq<bool>, nr: nat) {
    && |was| == |masked| == |vectors|
    && forall i | 0 <= i < |vectors| && (!was[i] || (i < nr && !masked[i])) :: vectors[i].inUse
  }

  predicate RoutedUpTo(vectors: seq<Vector>, was: seq<bool>, masked: seq<bool>, nr: nat) {
    && |was| == |masked| == |vectors|
    && forall i | 0 <= i < |vectors| && !masked[i] && (i < nr || !was[i]) :: vectors[i].Bypassed()
  }

  predicate SyncedUpTo(vectors: seq<Vector>, was: seq<bool>, masked: seq<bool>, unsynced: set<nat>, nr: nat) {
    && |was| == |masked| == |vectors|
    && forall i | i in unsynced :: nr <= i < |vectors| && masked[i] != was[i] && vectors[i].Bypassed()
  }

  lemma ReportedOne(vectors: seq<Vector>, vectors': seq<Vector>, was: seq<bool>, masked: seq<bool>, nr: nat)
    requires nr < |vectors| == |vectors'| && vectors' == vectors[nr := vectors'[nr]]
    requires UsedUpTo(vectors, was, masked, nr) && (masked[nr] == was[nr] || vectors'[nr].inUse)
    requires masked[nr] == was[nr] ==> vectors'[nr] == vectors[nr]
    ensures UsedUpTo(vectors', was, masked, nr + 1)
    ensures RoutedUpTo(vectors, was, masked, nr) && (masked[nr] == was[nr] || masked[nr] || vectors'[nr].Bypassed()) ==>
              RoutedUpTo(vectors', was, masked, nr + 1)
  {
  }

  lemma SyncedOne(vectors: seq<Vector>, vectors': seq<Vector>, was: seq<bool>, masked: seq<bool>,
                  unsynced: set<nat>, unsynced': set<nat>, nr: nat)
    requires nr < |vectors| == |vectors'| && vectors' == vectors[nr := vectors'[nr]]
    requires SyncedUpTo(vectors, was, masked, unsynced, nr) && unsynced' <= unsynced
    requires masked[nr] == was[nr] || (vectors[nr].Bypassed() ==> nr !in unsynced')
    ensures SyncedUpTo(vectors', was, masked, unsynced', nr + 1)
  {
  }

  lemma AllReported(vectors: seq<Vector>, was: seq<bool>, masked: seq<bool>, unsynced: set<nat>)
    ensures UsedUpTo(vectors, was, masked, |vectors|) ==>
              |masked| == |vectors| && forall i | 0 <= i < |vectors| && !masked[i] :: vectors[i].inUse
    ensures RoutedUpTo(vectors, was, masked, |vectors|) ==>
              |masked| == |vectors| && forall i | 0 <= i < |vectors| && !masked[i] :: vectors[i].Bypassed()
    ensures SyncedUpTo(vectors, was, masked, unsynced, |vectors|) ==> unsynced == {}
  {
  }

  // The guest changes table entries of masked vectors.
  lemma TableRewritten(vectors: seq<Vector>, pci: PciState, table: seq<int>, messages: map<int, Message>)
    requires Programmed(Msix, vectors, pci, messages, {}) && |table| == |pci.table|
    requires forall i | 0 <= i < |table| && !pci.masked[i] :: table[i] == pci.table[i]
    ensures Programmed(Msix, vectors, pci.(table := table), messages, {})
  {
  }

  lemma TableUnused(mode: Mode, vectors: seq<Vector>, pci: PciState, table: seq<int>, messages: map<int, Message>)
    requires mode != Msix && Programmed(mode, vectors, pci, messages, {})
    ensures Programmed(mode, vectors, pci.(table := table), messages, {})
  {
  }

  lemma BaseUnused(mode: Mode, vectors: seq<Vector>, pci: PciState, on: bool, base: int, messages: map<int, Message>)
    requires Programmed(mode, vectors, pci, messages, {})
    ensures mode != Msi ==> Programmed(mode, vectors, pci.(msiOn := on, msiBase := base), messages, {})
  {
  }

  lemma MasksUnused(mode: Mode, vectors: seq<Vector>, pci: PciState, on: bool, masked: seq<bool>,
                    messages: map<int, Message>)
    requires mode != Msix && Programmed(mode, vectors, pci, messages, {})
    ensures Programmed(mode, vectors, pci.(msixOn := on, masked := masked), messages, {})
  {
  }

  lemma NothingProgrammed(mode: Mode, vectors: seq<Vector>, pci: PciState, messages: map<int, Message>)
    requires mode == Msix ==> |pci.masked| == |pci.table| == |vectors|
    requires forall i | 0 <= i < |vectors| :: !vectors[i].Bypassed()
    ensures Programmed(mode, vectors, pci, messages, {})
  {
  }

  // Routing ------------------------------------------------------------------------------

  /** What the host signals for each MSI vector: the KVM eventfd if the vector is routed
      through KVM, QEMU's eventfd otherwise.  No vector of an index that is not set up. */
  ghost predicate MsiRouted(mode: Mode, vectors: seq<Vector>, triggers: seq<int>) {
    && |triggers| == (if mode == Msi then |vectors| else 0)
    && forall i: nat | i < |triggers| :: triggers[i] == vectors[i].Trigger(false)
  }

  /** For MSI-X: nothing if the vector is unused, the KVM eventfd if it is routed through
      KVM and unmasked, QEMU's eventfd otherwise.  Vectors in unsynced are not covered. */
  ghost predicate MsixRouted(mode: Mode, vectors: seq<Vector>, masked: seq<bool>, unsynced: set<nat>,
                             triggers: map<nat, int>) {
    if mode == Msix then
      && |masked| == |vectors|
      && (forall i: nat | i < |vectors| && i !in unsynced :: TriggerOf(triggers, i) == vectors[i].Trigger(masked[i]))
    else triggers == map[]
  }

  function TriggerOf(triggers: map<nat, int>, i: nat): int {
    if i in triggers then triggers[i] else NO_FD
  }

  lemma VectorChanged(vectors: seq<Vector>, vectors': seq<Vector>, masked: seq<bool>, unsynced: set<nat>,
                      triggers: map<nat, int>, nr: nat)
    requires |vectors| == |vectors'| && nr < |vectors| && vectors' == vectors[nr := vectors'[nr]]
    requires MsixRouted(Msix, vectors, masked, unsynced, triggers)
    ensures MsixRouted(Msix, vectors', masked, unsynced + {nr}, triggers)
  {
  }

  // The vectors whose trigger depends on a mask that changed.
  ghost function MaskChanges(vectors: seq<Vector>, masked: seq<bool>, masked': seq<bool>): set<nat>
    requires |masked| == |masked'| == |vectors|
  {
    set i: nat | i < |vectors| && masked[i] != masked'[i] && vectors[i].Bypassed()
  }

  lemma MasksChanged(vectors: seq<Vector>, masked: seq<bool>, masked': seq<bool>, unsynced: set<nat>,
                     triggers: map<nat, int>)
    requires |masked| == |masked'| == |vectors| && MsixRouted(Msix, vectors, masked, unsynced, triggers)
    ensures MsixRouted(Msix, vectors, masked', unsynced + MaskChanges(vectors, masked, masked'), triggers)
  {
  }

  lemma VectorTriggered(vectors: seq<Vector>, masked: seq<bool>, unsynced: set<nat>, triggers: map<nat, int>, nr: nat)
    requires nr < |vectors| && MsixRouted(Msix, vectors, masked, unsynced, triggers)
    ensures |masked| == |vectors| && (nr !in unsynced ==> TriggerOf(triggers, nr) == vectors[nr].Trigger(masked[nr]))
  {
  }

  lemma TriggerSet(vectors: seq<Vector>, masked: seq<bool>, unsynced: set<nat>, triggers: map<nat, int>, nr: nat,
                   fd: int)
    requires nr < |vectors| && MsixRouted(Msix, vectors, masked, unsynced, triggers) && nr < |masked|
    ensures MsixRouted(Msix, vectors, masked, unsynced + {nr}, triggers)
    ensures MsixRouted(Msix, vectors, masked, unsynced + {nr}, triggers[nr := fd])
    ensures fd == vectors[nr].Trigger(masked[nr]) ==>
              MsixRouted(Msix, vectors, masked, unsynced - {nr}, triggers[nr := fd])
  {
  }

  lemma UnusedRouted(vectors: seq<Vector>, masked: seq<bool>)
    requires |masked| == |vectors| && UsedBelow(vectors, 0)
    ensures MsixRouted(Msix, vectors, masked, {}, map[])
  {
  }

  ghost function UsedVectors(vectors: seq<Vector>): set<nat> {
    set i: nat | i < |vectors| && vectors[i].inUse
  }

  lemma NothingSignaled(vectors: seq<Vector>, masked: seq<bool>)
    requires |masked| == |vectors|
    ensures MsixRouted(Msix, vectors, masked, UsedVectors(vectors), map[])
  {
  }
}
