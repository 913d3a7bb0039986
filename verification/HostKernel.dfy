/** The host side of an assigned device: the eventfds QEMU holds, KVM's interrupt
    routes and irqfd bindings, and the eventfds VFIO signals for each interrupt index.

    Every call may have any of the outcomes its contract allows; nothing about the
    host is decided by the bodies.  A map entry says which part of the device an
    eventfd or a route was created for, so releasing something twice, or releasing
    what was never created, violates a precondition here. */
module HostKernel {

  datatype Purpose = IntxTrigger | IntxUnmask | VectorTrigger(i: nat) | VectorBypass(i: nat)

  const NO_FD := -1

  /** The host resources a device holds: live eventfds, live KVM MSI routes (virq to
      vector number), MSI irqfds (eventfd to virq), and the eventfds QEMU's main loop
      listens on. */
  datatype Ledger = Ledger(eventfds: map<int, Purpose>, routes: map<int, nat>, bindings: map<int, int>,
                           handlers: set<int>)

  // What KVM does with an INTx eventfd: which interrupt it raises, and the eventfd it
  // signals when the guest is done with it.
  datatype IntxIrqfd = IntxIrqfd(gsi: int, resample: int)

  // The host's side of INTx.  VFIO: the eventfd it signals, whether INTx is masked at
  // the device, whether that eventfd holds an unread event, and the eventfd it unmasks
  // on.  KVM: its irqfds by eventfd, and those among them it refused to give up.
  datatype IntxIrq = IntxIrq(trigger: int, masked: bool, signaled: bool, unmask: int,
                             irqfds: map<int, IntxIrqfd>, stuck: set<int>)

  const EMPTY := Ledger(map[], map[], map[], {})
  const NO_IRQ := IntxIrq(NO_FD, false, false, NO_FD, map[], {})

  // What a KVM route delivers: message i of a base the MSI capability holds, or an MSI-X
  // table entry.
  datatype Message = MsiMessage(base: int, vector: nat) | TableEntry(value: int)

  lemma UnusedNumberExists(used: set<int>)
    ensures exists n: int :: n >= 0 && n !in used
  {
    var bound := UpperBound(used);
    assert bound >= 0 && bound !in used;
  }

  lemma {:induction false} UpperBound(used: set<int>) returns (bound: int)
    ensures bound >= 0
    ensures forall n | n in used :: n < bound
  {
    bound := 0;
    if n: int :| n in used {
      var rest := UpperBound(used - {n});
      bound := if n < rest then rest else n + 1;
      forall k | k in used ensures k < bound {
        assert k == n || k in used - {n};
      }
    }
  }

  class Kernel {
    var ledger: Ledger
    var irq: IntxIrq
    var messages: map<int, Message>  // of each KVM route, by virq
    var msiTriggers: seq<int>        // eventfd VFIO signals for each MSI vector
    var msixTriggers: map<nat, int>  // the same for MSI-X
    var faults: nat                  // failed attempts to set up an interrupt trigger
    var refusals: nat                // failed attempts to have KVM deliver an interrupt
    var offered: int                 // the last number of MSI vectors offered instead
    const refusesMsi: bool           // this host refuses every MSI setup

    constructor (refusesMsi: bool)
      ensures Idle() && faults == 0 && this.refusesMsi == refusesMsi
    {
      ledger, irq, msiTriggers, msixTriggers, faults := EMPTY, NO_IRQ, [], map[], 0;
      messages, refusals, offered := map[], 0, 0;
      this.refusesMsi := refusesMsi;
    }

    /** The device holds nothing and no interrupt index is set up. */
    predicate Idle()
      reads this
    {
      ledger == EMPTY && irq == NO_IRQ && msiTriggers == [] && msixTriggers == map[]
    }

    // event_notifier_init where the caller does not handle failure.
    method NewEventfd(purpose: Purpose) returns (fd: int)
      modifies `ledger
      ensures fd >= 0 && fd !in old(ledger).eventfds
      ensures ledger == old(ledger).(eventfds := old(ledger).eventfds[fd := purpose])
    {
      UnusedNumberExists(ledger.eventfds.Keys);
      fd :| fd >= 0 && fd !in ledger.eventfds;
      ledger := ledger.(eventfds := ledger.eventfds[fd := purpose]);
    }

    // event_notifier_init; a negative result is a failure.
    method TryNewEventfd(purpose: Purpose) returns (fd: int)
      modifies `ledger, `refusals
      ensures fd < 0 ==> ledger == old(ledger) && refusals == old(refusals) + 1
      ensures fd >= 0 ==> fd !in old(ledger).eventfds && refusals == old(refusals)
      ensures fd >= 0 ==> ledger == old(ledger).(eventfds := old(ledger).eventfds[fd := purpose])
    {
      fd := NO_FD;
      if * {
        fd := NewEventfd(purpose);
      } else {
        refusals := refusals + 1;
      }
    }

    // event_notifier_cleanup.  No handler and no irqfd may be left on a closed eventfd.
    method CloseEventfd(fd: int)
      requires fd in ledger.eventfds && fd !in ledger.handlers && fd !in ledger.bindings
      modifies `ledger
      ensures ledger == old(ledger).(eventfds := old(ledger).eventfds - {fd})
    {
      ledger := ledger.(eventfds := ledger.eventfds - {fd});
    }

    // qemu_set_fd_handler
    method SetFdHandler(fd: int, install: bool)
      requires fd in ledger.eventfds
      modifies `ledger
      ensures ledger
           == old(ledger).(handlers := if install then old(ledger).handlers + {fd} else old(ledger).handlers - {fd})
    {
      ledger := ledger.(handlers := if install then ledger.handlers + {fd} else ledger.handlers - {fd});
    }

    // kvm_irqchip_add_msi_route; a negative result is a failure.
    method AddMsiRoute(vector: nat, message: Message) returns (virq: int)
      modifies `ledger, `messages, `refusals
      ensures virq < 0 ==> ledger == old(ledger) && messages == old(messages) && refusals == old(refusals) + 1
      ensures virq >= 0 ==> virq !in old(ledger).routes && messages == old(messages)[virq := message]
      ensures virq >= 0 ==> ledger == old(ledger).(routes := old(ledger).routes[virq := vector])
      ensures virq >= 0 ==> refusals == old(refusals)
    {
      virq := -1;
      if * {
        UnusedNumberExists(ledger.routes.Keys);
        virq :| virq >= 0 && virq !in ledger.routes;
        ledger := ledger.(routes := ledger.routes[virq := vector]);
        messages := messages[virq := message];
      } else {
        refusals := refusals + 1;
      }
    }

    // kvm_irqchip_update_msi_route and kvm_irqchip_commit_routes
    method UpdateMsiRoute(virq: int, message: Message)
      requires virq in ledger.routes
      modifies `messages
      ensures messages == old(messages)[virq := message]
    {
      messages := messages[virq := message];
    }

    // kvm_irqchip_release_virq
    method ReleaseVirq(virq: int)
      requires virq in ledger.routes
      modifies `ledger
      ensures ledger == old(ledger).(routes := old(ledger).routes - {virq})
    {
      ledger := ledger.(routes := ledger.routes - {virq});
    }

    // kvm_irqchip_add_irqfd_notifier_gsi
    method BindIrqfd(fd: int, virq: int) returns (ok: bool)
      requires fd in ledger.eventfds && fd !in ledger.bindings && virq in ledger.routes
      modifies `ledger, `refusals
      ensures ledger == if ok then old(ledger).(bindings := old(ledger).bindings[fd := virq]) else old(ledger)
      ensures refusals == old(refusals) + if ok then 0 else 1
    {
      ok := *;
      if ok {
        ledger := ledger.(bindings := ledger.bindings[fd := virq]);
      } else {
        refusals := refusals + 1;
      }
    }

    // kvm_irqchip_remove_irqfd_notifier_gsi
    method UnbindIrqfd(fd: int, virq: int)
      requires fd in ledger.bindings && ledger.bindings[fd] == virq
      modifies `ledger
      ensures ledger == old(ledger).(bindings := old(ledger).bindings - {fd})
    {
      ledger := ledger.(bindings := ledger.bindings - {fd});
    }

    // event_notifier_cleanup of an INTx eventfd.  VFIO and KVM let go of it by
    // themselves when it is closed.
    method CloseIntxEventfd(fd: int)
      requires fd in ledger.eventfds && fd !in ledger.handlers && fd !in ledger.bindings && irq.trigger != fd
      modifies `ledger, `irq
      ensures ledger == old(ledger).(eventfds := old(ledger).eventfds - {fd})
      ensures irq == old(irq).(unmask := if old(irq).unmask == fd then NO_FD else old(irq).unmask,
                               irqfds := old(irq).irqfds - {fd}, stuck := old(irq).stuck - {fd})
    {
      CloseEventfd(fd);
      irq := irq.(unmask := if irq.unmask == fd then NO_FD else irq.unmask, irqfds := irq.irqfds - {fd},
                  stuck := irq.stuck - {fd});
    }

    // KVM_IRQFD with a resample eventfd; KVM takes an eventfd only once.
    method AssignIntxIrqfd(fd: int, gsi: int, resample: int) returns (ok: bool)
      requires fd in ledger.eventfds && resample in ledger.eventfds
      modifies `irq, `refusals
      ensures ok ==>
                fd !in old(irq).irqfds && irq == old(irq).(irqfds := old(irq).irqfds[fd := IntxIrqfd(gsi, resample)])
      ensures !ok ==> irq == old(irq)
      ensures refusals == old(refusals) + if ok then 0 else 1
    {
      ok := *;
      ok := ok && fd !in irq.irqfds;
      if ok {
        irq := irq.(irqfds := irq.irqfds[fd := IntxIrqfd(gsi, resample)]);
      } else {
        refusals := refusals + 1;
      }
    }

    // KVM_IRQFD with the deassign flag, for an eventfd and the interrupt it is assigned
    // to.  On an error KVM keeps the irqfd.
    method DeassignIntxIrqfd(fd: int, gsi: int)
      requires fd in irq.irqfds && irq.irqfds[fd].gsi == gsi
      modifies `irq, `refusals
      ensures if refusals == old(refusals) then irq == old(irq).(irqfds := old(irq).irqfds - {fd})
              else refusals == old(refusals) + 1 && irq == old(irq).(stuck := old(irq).stuck + {fd})
    {
      if * {
        irq := irq.(irqfds := irq.irqfds - {fd});
      } else {
        irq := irq.(stuck := irq.stuck + {fd});
        refusals := refusals + 1;
      }
    }

    // VFIO_DEVICE_SET_IRQS on the INTx index: unmask on an eventfd.
    method SetIntxUnmask(fd: int) returns (ok: bool)
      requires fd in ledger.eventfds
      modifies `irq, `refusals
      ensures irq == if ok then old(irq).(unmask := fd) else old(irq)
      ensures refusals == old(refusals) + if ok then 0 else 1
    {
      ok := *;
      if ok {
        irq := irq.(unmask := fd);
      } else {
        refusals := refusals + 1;
      }
    }

    // VFIO_DEVICE_SET_IRQS on the INTx index: trigger on an eventfd, unmasked.
    method SetIntxTrigger(fd: int) returns (ok: bool)
      requires fd in ledger.eventfds
      modifies `irq, `faults
      ensures ok ==> irq == old(irq).(trigger := fd, masked := false, signaled := false) && faults == old(faults)
      ensures !ok ==> irq == old(irq) && faults == old(faults) + 1
    {
      ok := *;
      if ok {
        irq := irq.(trigger := fd, masked := false, signaled := false);
      } else {
        faults := faults + 1;
      }
    }

    // The device pulls its INTx line; VFIO masks it and signals the eventfd.
    method DeviceRaisesIntx()
      modifies `irq
      ensures irq
           == if old(irq).trigger != NO_FD && !old(irq).masked then old(irq).(masked := true, signaled := true)
              else old(irq)
    {
      if irq.trigger != NO_FD && !irq.masked {
        irq := irq.(masked := true, signaled := true);
      }
    }

    // vfio_mask_single_irqindex and vfio_unmask_single_irqindex on the INTx index
    method SetIntxMask(mask: bool)
      modifies `irq
      ensures irq == old(irq).(masked := mask)
    {
      irq := irq.(masked := mask);
    }

    // event_notifier_test_and_clear on the INTx eventfd
    method TakeIntxEvent() returns (signaled: bool)
      modifies `irq
      ensures signaled == old(irq).signaled && irq == old(irq).(signaled := false)
    {
      signaled := irq.signaled;
      irq := irq.(signaled := false);
    }

    // vfio_disable_irqindex on each index
    method DisableIntxIndex()
      modifies `irq
      ensures irq == old(irq).(trigger := NO_FD, masked := false, signaled := false, unmask := NO_FD)
    {
      irq := irq.(trigger := NO_FD, masked := false, signaled := false, unmask := NO_FD);
    }

    method DisableMsiIndex()
      modifies `msiTriggers
      ensures msiTriggers == []
    {
      msiTriggers := [];
    }

    method DisableMsixIndex()
      modifies `msixTriggers
      ensures msixTriggers == map[]
    {
      msixTriggers := map[];
    }

    // VFIO_DEVICE_SET_IRQS on all MSI vectors.  A positive result is the number of
    // vectors the host could set up instead.
    method SetMsiTriggers(fds: seq<int>) returns (ret: int)
      modifies `msiTriggers, `faults, `offered
      ensures ret <= |fds|
      ensures ret == 0 ==> msiTriggers == fds && faults == old(faults)
      ensures ret != 0 ==> msiTriggers == old(msiTriggers) && faults == old(faults) + 1
      ensures offered == if ret > 0 then ret else old(offered)
      ensures refusesMsi ==> ret < 0
    {
      ret := *;
      if refusesMsi || ret > |fds| {
        ret := -1;
      }
      if ret == 0 {
        msiTriggers := fds;
      } else {
        faults := faults + 1;
      }
      if ret > 0 {
        offered := ret;
      }
    }

    // VFIO_DEVICE_SET_IRQS on MSI-X vectors 0 up to |fds|, after the index was disabled.
    method SetMsixTriggers(fds: seq<int>) returns (ok: bool)
      requires msixTriggers == map[]
      modifies `msixTriggers, `faults
      ensures ok ==> msixTriggers == (map i: nat | 0 <= i < |fds| :: fds[i]) && faults == old(faults)
      ensures !ok ==> msixTriggers == map[] && faults == old(faults) + 1
    {
      ok := *;
      if ok {
        msixTriggers := map i: nat | 0 <= i < |fds| :: fds[i];
      } else {
        faults := faults + 1;
      }
    }

    // VFIO_DEVICE_SET_IRQS on one MSI-X vector
    method SetMsixTrigger(nr: nat, fd: int) returns (ok: bool)
      modifies `msixTriggers, `faults
      ensures ok ==> msixTriggers == old(msixTriggers)[nr := fd] && faults == old(faults)
      ensures !ok ==> msixTriggers == old(msixTriggers) && faults == old(faults) + 1
    {
      ok := *;
      if ok {
        msixTriggers := msixTriggers[nr := fd];
      } else {
        faults := faults + 1;
      }
    }
  }
}
