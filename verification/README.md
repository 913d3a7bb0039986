# A verified model of the modified QEMU device layer and of the guest's timer module

The repository changes QEMU 2.9.1 so that a guest with an assigned network device can be migrated live, and adds a
kernel module that lets timer interrupts reach the guest directly. This project models the parts of it that keep state
over time and proves what they keep.

**Assigned PCI devices** (`hw/vfio/pci.c`).

- `HostKernel`, `VfioState`, `VfioInterrupts`: the interrupt layer, a machine with the modes NONE, INTx, MSI and MSI-X.
  `HostKernel.Kernel` stands for the host; its calls may fail, except for those named under "Left out". It keeps a
  ledger of live eventfds, KVM routes, irqfd bindings and handlers. The central invariant, `VfioDevice.Agrees`, says that every live
  resource has exactly one owner in the device and every owner's resource is live; that a vector's KVM eventfd and route
  are live exactly when it is in use and `virq >= 0`, and its own eventfd exactly when it is in use; that `pending` is the
  guest's INTx line, and that a pending interrupt keeps the BAR mmaps off with the timer armed; and which eventfd the host
  signals for every vector. `VfioDevice.MessagesCurrent` adds that every KVM route delivers what the guest has programmed.
  Every operation keeps both, over any run. `VfioDevice.KvmUsed` says that KVM delivers whatever the options allow it to;
  it is kept as long as the host refuses none of the calls that set this up, which `Kernel.refusals` counts.
- `ConfigView`: emulated and physical bits of config space, on bit vectors.
- `StdCapabilities`, `ExtCapabilities`: the two capability lists rebuilt inside the config space they are read from.
- `MsixRegion`: the MSI-X table carved out of the mmap of its BAR.
- `HotReset`: the devices quiesced around a bus reset.

**The monitor** (`monitor.c`).

- `EventThrottle`: the rate limit on events, with its timers.
- `FdSets`: the numbered sets of file descriptors, which are closed late.
- `ExprParser`: the expression evaluator. `Parse` specifies it on the remaining input; the methods of `Evaluator`, which
  move `pch`, are proved to do the same. The round trip is over concrete syntax trees, with every literal form, gap and
  redundant bracket, and in both directions.
- `Tokenizer`: quoted arguments. `MonitorText` holds what both parsers know about white space.

**Devices and buses** (`hw/core/qdev.c`, `qdev-monitor.c`).

- `Realize`: realizing a device in one go and in the two halves that this repository adds.
- `BusMembership`, `BusSearch`: child lists and parent pointers; the search that prefers a bus with room.

**The guest's module** (`did.c`).

- `DirectTimer`: set-up, early delivery and restore on each processor.

`Options` and `ByteBits` hold an optional value and a fact about bytes that several modules need.

## What the code does not do

Where a natural property is false of the code, the model keeps the code and proves when the property holds.

- `msi_vectors` is freed but not cleared when the host refuses MSI (pci.c:701-717). It is freed a second time exactly when
  the guest then turns MSI off: the `staleFrees` clause of `VfioDevice.WriteConfig`, with the run `RefusedMsiIsFreedTwice`.
- A vector of a fresh MSI-X array has `virq` 0, not -1, until it is used (pci.c:620), so a route is live when `use` is set
  and `virq >= 0` (`VfioState.LiveExactly`), not when `virq >= 0` alone (`FreshEntryHasNoRoute`).
- The comment at pci.c:632-635 says that no vector is enabled after MSI-X has been enabled. Vector 0 stays in use, and when
  masked the host signals QEMU's eventfd for it (`VfioDevice.MsixEnable`).
- When KVM refuses to give up the irqfd on the INTx eventfd, the code only reports it (pci.c:199-201). KVM then keeps
  listening and cannot be switched on again until the eventfd is closed: the `stuck` clauses of `VfioState.BypassedBy` and
  `VfioDevice.IntxEnableKvm`.
- A second `vfio_add_emulated_word` on a word would give up the write protection of the first for the bits that only the
  first had (`ConfigView.SecondCallKeepsProtection`, and `VfioConfig.SecondCallUnprotects` for what the guest then reads).
  No caller in pci.c does this.
- The first half of realizing sets `realized` whatever happened (qdev-monitor.c:909-910). The flag agrees with that of the
  one-shot form exactly when no stage fails (`Realize.BothForms`); `RefusedIsFlagged` is a device that was refused. When
  both halves fail, `unrealize` is called on a device that was never realized, and only then (`SplitRollback`).
- A failed unrealize leaves `realized` set although the device has been taken apart (`Realize.Device.SetRealized`).
- Removing a device from a bus does not make room for another: `max_index` never goes down (`BusMembership.Bus.RemoveChild`).
- `hc_setup_dtid` reports failure when the hypervisor gives a zero factor, although direct delivery is set up by then.
  Restoring then gives back the clock's factors only if the saved ones happen to agree (`DirectTimer.Guest.SetupAndRestore`).
- Calling `set_timer_event_handler` twice saves the module's own handler, and the next interrupt that is due never ends
  (`DirectTimer.Guest.SaveTwice`).

## Model

| member | source | states |
|---|---|---|
| `VfioInterrupts.VfioDevice.Run` | code/live-migration-automation/qemu-2.9.1-modified-files/hw/vfio/pci.c:56-803 | over any run of guest writes, mask and table changes, INTx routing, device interrupts, timers and eventfds: device and host agree, every KVM route delivers what the guest has programmed, as long as no trigger call fails the mode is the one selected and all triggers are right, and as long as no host call for the KVM paths is refused KVM is used wherever the options allow it |
| `VfioInterrupts.VfioDevice.RunAndExit` | code/live-migration-automation/qemu-2.9.1-modified-files/hw/vfio/pci.c:1168-1263 | exit after any run ends in mode NONE with no eventfd, route, irqfd or handler live, KVM's INTx irqfd included |
| `VfioInterrupts.VfioDevice.Step` | code/live-migration-automation/qemu-2.9.1-modified-files/hw/vfio/pci.c:56-786 | every single event keeps the agreement and the messages of all routes and, without a failing host call, the mode selected by the enable bits |
| `VfioInterrupts.VfioDevice.WriteConfig` | code/live-migration-automation/qemu-2.9.1-modified-files/hw/vfio/pci.c:1168-1242 | the mode after a config write is the one the enable bits select, or INTx or NONE as fallback; a stale `msi_vectors` is freed again exactly when MSI is turned off after the host refused it |
| `VfioInterrupts.VfioDevice.WriteMsi` | code/live-migration-automation/qemu-2.9.1-modified-files/hw/vfio/pci.c:1183-1202 | the MSI branch: mode and stale pointer for each change of the enable bit |
| `VfioInterrupts.VfioDevice.WriteMsix` | code/live-migration-automation/qemu-2.9.1-modified-files/hw/vfio/pci.c:1203-1215 | the MSI-X branch: mode, masks and triggers for each change of the enable bit |
| `VfioInterrupts.AlignedAccessTouchesOne` | code/live-migration-automation/qemu-2.9.1-modified-files/hw/vfio/pci.c:1183-1215 | an aligned access touches at most one of the two capabilities, so the else-if loses nothing |
| `VfioInterrupts.RefusedMsiIsFreedTwice` | code/live-migration-automation/qemu-2.9.1-modified-files/hw/vfio/pci.c:691-743 | the concrete run in which the vectors are freed a second time |
| `VfioInterrupts.FreedTwiceFromTheStart` | code/live-migration-automation/qemu-2.9.1-modified-files/hw/vfio/pci.c:691-743 | the same run from a new host and a new device |
| `VfioInterrupts.VfioDevice.DisableInterrupts` | code/live-migration-automation/qemu-2.9.1-modified-files/hw/vfio/pci.c:1247-1263 | from every mode it ends in NONE with zero vectors and an idle host; the mutual recursion with the fallback to INTx terminates |
| `VfioInterrupts.VfioDevice.IntxMmapEnable` | code/live-migration-automation/qemu-2.9.1-modified-files/hw/vfio/pci.c:56-67 | the timer re-arms while the interrupt is pending and otherwise switches the mmaps on |
| `VfioInterrupts.VfioDevice.IntxInterrupt` | code/live-migration-automation/qemu-2.9.1-modified-files/hw/vfio/pci.c:69-86 | only a signalled event asserts the line; then mmaps go off and, with a timeout, the timer is armed |
| `VfioInterrupts.VfioDevice.IntxEoi` | code/live-migration-automation/qemu-2.9.1-modified-files/hw/vfio/pci.c:88-101 | a pending interrupt is deasserted and unmasked, nothing else changes |
| `VfioInterrupts.VfioDevice.IntxEnableKvm` | code/live-migration-automation/qemu-2.9.1-modified-files/hw/vfio/pci.c:103-178 | KVM takes over, with an irqfd for the interrupt of the route and VFIO unmasking on its resample eventfd, or all of it is given back whichever step fails; it does take over when KVM is allowed, the route is enabled and no step fails; an irqfd that KVM kept keeps KVM off |
| `VfioInterrupts.VfioDevice.AssignIntx` | code/live-migration-automation/qemu-2.9.1-modified-files/hw/vfio/pci.c:127-173 | the steps that can fail, with their roll-back down to the deassign |
| `VfioInterrupts.VfioDevice.IntxDisableKvm` | code/live-migration-automation/qemu-2.9.1-modified-files/hw/vfio/pci.c:180-219 | QEMU listens again, the unmask eventfd is gone, and KVM's irqfd with it unless KVM refused; a no-op without KVM |
| `VfioInterrupts.VfioDevice.IntxUpdate` | code/live-migration-automation/qemu-2.9.1-modified-files/hw/vfio/pci.c:221-255 | a new route moves the line through KVM off and on, the irqfd being given up for the old interrupt and taken for the new one; KVM is on again unless a call is refused; a route that is disabled leaves KVM off |
| `VfioInterrupts.VfioDevice.IntxDisable` | code/live-migration-automation/qemu-2.9.1-modified-files/hw/vfio/pci.c:332-350 | INTx is left with mmaps on, the timer off and all its eventfds closed |
| `VfioInterrupts.VfioDevice.IntxEnable` | code/live-migration-automation/qemu-2.9.1-modified-files/hw/vfio/pci.c:257-330 | INTx is on unless there is no pin or the host refuses; nothing leaks on a refusal |
| `VfioInterrupts.VfioDevice.IntxStart` | code/live-migration-automation/qemu-2.9.1-modified-files/hw/vfio/pci.c:276-330 | the part after all interrupts are off, with KVM on unless a call is refused |
| `VfioInterrupts.VfioDevice.IntxOpen` | code/live-migration-automation/qemu-2.9.1-modified-files/hw/vfio/pci.c:280-303 | the eventfd, its listener and the request to signal it, undone when the host refuses |
| `VfioInterrupts.VfioDevice.AddKvmMsiVirq` | code/live-migration-automation/qemu-2.9.1-modified-files/hw/vfio/pci.c:434-461 | a vector has its KVM eventfd, route and binding all together or not at all, the route with the given message; all of them when the options allow it and no host call is refused |
| `VfioInterrupts.VfioDevice.RemoveKvmMsiVirq` | code/live-migration-automation/qemu-2.9.1-modified-files/hw/vfio/pci.c:463-470 | the route, its binding and its eventfd are given back once |
| `VfioInterrupts.VfioDevice.CleanVector` | code/live-migration-automation/qemu-2.9.1-modified-files/hw/vfio/pci.c:730-737 | one vector gives back its route, handler and eventfds, others keep theirs |
| `VfioInterrupts.VfioDevice.VectorFds` | code/live-migration-automation/qemu-2.9.1-modified-files/hw/vfio/pci.c:406-425 | the eventfd passed for each vector: none, QEMU's or KVM's |
| `VfioInterrupts.VfioDevice.EnableMsiVectors` | code/live-migration-automation/qemu-2.9.1-modified-files/hw/vfio/pci.c:390-432 | the host signals those eventfds, or is unchanged on a failure |
| `VfioInterrupts.VfioDevice.EnableMsixVectors` | code/live-migration-automation/qemu-2.9.1-modified-files/hw/vfio/pci.c:390-432 | the same for MSI-X, where masked vectors stay with QEMU |
| `VfioInterrupts.VfioDevice.MsixVectorDoUse` | code/live-migration-automation/qemu-2.9.1-modified-files/hw/vfio/pci.c:479-569 | the vector is in use and its trigger right afterwards, over both the path that grows `nr_vectors` and the one that sets a single vector; PBA goes off only when nothing is pending |
| `VfioInterrupts.VfioDevice.PrepareVector` | code/live-migration-automation/qemu-2.9.1-modified-files/hw/vfio/pci.c:487-523 | the eventfd, handler and route half of it: the route is added, removed or given the new message, all others stay |
| `VfioInterrupts.VfioDevice.SignalVector` | code/live-migration-automation/qemu-2.9.1-modified-files/hw/vfio/pci.c:524-558 | the half that tells the host, bulk or single |
| `VfioInterrupts.VfioDevice.MsixVectorRelease` | code/live-migration-automation/qemu-2.9.1-modified-files/hw/vfio/pci.c:577-614 | a vector routed through KVM goes back to QEMU's eventfd |
| `VfioInterrupts.VfioDevice.MsixEnable` | code/live-migration-automation/qemu-2.9.1-modified-files/hw/vfio/pci.c:616-646 | mode MSI-X, notifiers set, every unmasked vector in use, routed and programmed; vector 0 is in use and, if masked, signalled on QEMU's eventfd; every other masked entry is still zeroed |
| `VfioInterrupts.VfioDevice.UsedVectorSignaled` | code/live-migration-automation/qemu-2.9.1-modified-files/hw/vfio/pci.c:400-425 | which eventfd the host signals for a vector in use |
| `VfioInterrupts.VfioDevice.EnterMsix` | code/live-migration-automation/qemu-2.9.1-modified-files/hw/vfio/pci.c:618-638 | vector 0 alone is used, without a route |
| `VfioInterrupts.VfioDevice.AllocateMsixVectors` | code/live-migration-automation/qemu-2.9.1-modified-files/hw/vfio/pci.c:620-622 | a zeroed array is a sound start for MSI-X |
| `VfioInterrupts.VfioDevice.SetVectorNotifiers` | code/live-migration-automation/qemu-2.9.1-modified-files/hw/vfio/pci.c:640-643 | the core reports the vectors that are already unmasked; masked entries stay as they are |
| `VfioInterrupts.VfioDevice.MsiEnable` | code/live-migration-automation/qemu-2.9.1-modified-files/hw/vfio/pci.c:648-721 | MSI with as many vectors as the host grants, each routed through KVM unless a call is refused; retried with exactly the number the host offered, or NONE and a dangling array |
| `VfioInterrupts.VfioDevice.TryMsi` | code/live-migration-automation/qemu-2.9.1-modified-files/hw/vfio/pci.c:655-718 | one attempt: MSI with every trigger set, or all vectors freed, the array dangling and the host idle |
| `VfioInterrupts.VfioDevice.AllocateMsiVectors` | code/live-migration-automation/qemu-2.9.1-modified-files/hw/vfio/pci.c:654-677 | a fresh array with every vector in use, listening and routed where KVM allows it |
| `VfioInterrupts.VfioDevice.SetUpMsiVector` | code/live-migration-automation/qemu-2.9.1-modified-files/hw/vfio/pci.c:658-677 | one vector is in use, listening, and routed with its own message or not at all |
| `VfioInterrupts.VfioDevice.FreeVectors` | code/live-migration-automation/qemu-2.9.1-modified-files/hw/vfio/pci.c:728-740 | all vectors in use are cleaned, each once |
| `VfioInterrupts.VfioDevice.MsiDisableCommon` | code/live-migration-automation/qemu-2.9.1-modified-files/hw/vfio/pci.c:723-749 | each vector in use is cleaned once, the array freed, and INTx comes back |
| `VfioInterrupts.VfioDevice.ForgetVectors` | code/live-migration-automation/qemu-2.9.1-modified-files/hw/vfio/pci.c:723-743 | NONE with no vectors; a dangling array counts as freed again |
| `VfioInterrupts.VfioDevice.MsixDisable` | code/live-migration-automation/qemu-2.9.1-modified-files/hw/vfio/pci.c:751-778 | from MSI-X to INTx or NONE with no pending bit and no stale trigger |
| `VfioInterrupts.VfioDevice.MsiDisable` | code/live-migration-automation/qemu-2.9.1-modified-files/hw/vfio/pci.c:780-786 | from MSI, or after a refused MSI, to INTx or NONE |
| `VfioInterrupts.VfioDevice.MsiInterrupt` | code/live-migration-automation/qemu-2.9.1-modified-files/hw/vfio/pci.c:355-388 | only a signalled event counts; a masked MSI-X vector sets its pending bit and enables the PBA; the guest is notified of this vector |
| `VfioInterrupts.VfioDevice.UpdateMsi` | code/live-migration-automation/qemu-2.9.1-modified-files/hw/vfio/pci.c:788-803 | after the guest rewrites the message every MSI route delivers it |
| `VfioInterrupts.VfioDevice.GuestMaskWrite` | code/live-migration-automation/qemu-2.9.1-modified-files/hw/vfio/pci.c:571-614 | after any change of masks every trigger follows its mask, every unmasked route delivers its table entry, and every unmasked vector is routed unless a call is refused |
| `VfioInterrupts.VfioDevice.ReportMasks` | code/live-migration-automation/qemu-2.9.1-modified-files/hw/vfio/pci.c:571-614 | the callbacks of one change, one for each vector that changed, bring the vectors from the old masks to the new ones one by one |
| `VfioState.ReportedOne` | code/live-migration-automation/qemu-2.9.1-modified-files/hw/vfio/pci.c:571-614 | one callback carries the relation between masks and vectors one vector further |
| `VfioInterrupts.VfioDevice.ReportMask` | code/live-migration-automation/qemu-2.9.1-modified-files/hw/vfio/pci.c:571-614 | one vector: its trigger and its message follow its mask, all others stay |
| `VfioInterrupts.VfioDevice.GuestTableWrite` | code/live-migration-automation/qemu-2.9.1-modified-files/hw/vfio/pci.c:571-575 | a table entry changed while masked changes no message that is delivered |
| `VfioState.NoOwnersHoldNothing` | code/live-migration-automation/qemu-2.9.1-modified-files/hw/vfio/pci.c:723-749 | a device whose entries are all unused has nothing live in the host |
| `VfioState.LiveExactly` | code/live-migration-automation/qemu-2.9.1-modified-files/hw/vfio/pci.c:434-523 | a vector's QEMU eventfd is live exactly when it is in use, its KVM eventfd and route exactly when it is in use and `virq >= 0` |
| `VfioState.FreshEntryHasNoRoute` | code/live-migration-automation/qemu-2.9.1-modified-files/hw/vfio/pci.c:620-620 | a zeroed entry has `virq >= 0` and no route |
| `VfioState.KvmListensExactly` | code/live-migration-automation/qemu-2.9.1-modified-files/hw/vfio/pci.c:103-219 | KVM has the INTx eventfd exactly when `kvm_accel` is set or KVM refused to give it up; never both |
| `VfioState.VectorProgrammed` | code/live-migration-automation/qemu-2.9.1-modified-files/hw/vfio/pci.c:472-516 | giving one route the guest's message keeps all others |
| `VfioState.RouteNotShared` | code/live-migration-automation/qemu-2.9.1-modified-files/hw/vfio/pci.c:463-477 | no two vectors share a route, so changing one message changes no other |
| `VfioState.HandlerAccounted` | code/live-migration-automation/qemu-2.9.1-modified-files/hw/vfio/pci.c:500-501 | changing who listens on an eventfd keeps resources accounted |
| `VfioState.UseVector` | code/live-migration-automation/qemu-2.9.1-modified-files/hw/vfio/pci.c:490-498 | a new vector owns exactly its trigger eventfd |
| `VfioState.RouteVector` | code/live-migration-automation/qemu-2.9.1-modified-files/hw/vfio/pci.c:434-461 | a vector that gets a route owns it, its eventfd and the binding, and nobody else does |
| `VfioState.UnrouteVector` | code/live-migration-automation/qemu-2.9.1-modified-files/hw/vfio/pci.c:463-470 | giving the route back leaves everything else owned as before |
| `VfioState.DropVector` | code/live-migration-automation/qemu-2.9.1-modified-files/hw/vfio/pci.c:728-738 | closing the last eventfd of a vector leaves no trace of it |
| `ConfigView.ReadIsView` | code/live-migration-automation/qemu-2.9.1-modified-files/hw/vfio/pci.c:1132-1166 | the shortcut read equals the bitwise choice between emulated and physical for lengths 1, 2 and 4 |
| `ConfigView.MergeThenLoad` | code/live-migration-automation/qemu-2.9.1-modified-files/hw/vfio/pci.c:1132-1166 | merging a loaded word is loading merged bytes |
| `ConfigView.ShortcutsAgree` | code/live-migration-automation/qemu-2.9.1-modified-files/hw/vfio/pci.c:1138-1161 | leaving out one of the two sources never shows |
| `ConfigView.WideReadIsBytes` | code/live-migration-automation/qemu-2.9.1-modified-files/hw/vfio/pci.c:1132-1166 | a 4-byte read is the only value whose i-th byte is the i-th of the four 1-byte reads |
| `ConfigView.VfioConfig.ReadConfig` | code/live-migration-automation/qemu-2.9.1-modified-files/hw/vfio/pci.c:1132-1166 | the read returns the view, or the error of a failed device read that was needed |
| `ConfigView.VfioConfig.WriteConfig` | code/live-migration-automation/qemu-2.9.1-modified-files/hw/vfio/pci.c:1234-1237 | a guest write changes QEMU's copy in the bits that are writable and nothing else |
| `ConfigView.VfioConfig.SetWordBits` | code/live-migration-automation/qemu-2.9.1-modified-files/hw/vfio/pci.c:1625-1628 | the masked bits of a word take the value, the other bits stay |
| `ConfigView.VfioConfig.AddEmulatedWord` | code/live-migration-automation/qemu-2.9.1-modified-files/hw/vfio/pci.c:1625-1636 | in the mask the word reads as the value and is read-only; outside it every bit becomes writable, the emulated bits stay and config takes the value's bits besides its own; other bytes are unchanged |
| `ConfigView.VfioConfig.AddEmulatedLong` | code/live-migration-automation/qemu-2.9.1-modified-files/hw/vfio/pci.c:1638-1649 | the same for the four bytes of a dword |
| `ConfigView.WriteKeepsPinned` | code/live-migration-automation/qemu-2.9.1-modified-files/hw/vfio/pci.c:1630-1636 | no guest write changes a pinned bit |
| `ConfigView.EmulatedBytePinned` | code/live-migration-automation/qemu-2.9.1-modified-files/hw/vfio/pci.c:1625-1636 | setting value, write mask and emulated bits pins a byte |
| `ConfigView.SecondCallKeepsProtection` | code/live-migration-automation/qemu-2.9.1-modified-files/hw/vfio/pci.c:1625-1636 | the exact condition on two masks under which the first field stays protected |
| `ConfigView.VfioConfig.GuestRun` | code/live-migration-automation/qemu-2.9.1-modified-files/hw/vfio/pci.c:1625-1649 | over any sequence of guest writes and device changes, a read of a pinned field gives its value in the mask |
| `ConfigView.VfioConfig.EmulatedWordStays` | code/live-migration-automation/qemu-2.9.1-modified-files/hw/vfio/pci.c:1625-1636 | after vfio_add_emulated_word and any writes, a 2-byte read masked is the value masked |
| `ConfigView.VfioConfig.EmulatedLongStays` | code/live-migration-automation/qemu-2.9.1-modified-files/hw/vfio/pci.c:1638-1649 | after vfio_add_emulated_long and any writes, a 4-byte read masked is the value masked |
| `ConfigView.VfioConfig.SecondCallUnprotects` | code/live-migration-automation/qemu-2.9.1-modified-files/hw/vfio/pci.c:1630-1636 | after calls with two disjoint masks on one word, the first field reads as the guest writes it |
| `ConfigView.FieldReads` | code/live-migration-automation/qemu-2.9.1-modified-files/hw/vfio/pci.c:1132-1166 | a field whose bytes hold its value reads as that value |
| `StdCapabilities.CapSpace.AddStdCapabilities` | code/live-migration-automation/qemu-2.9.1-modified-files/hw/vfio/pci.c:1799-1871 | success exactly if no capability is refused; then the rebuilt list, and what the guest follows, visits the kept capabilities in physical order, and the status bit that announces the list is emulated |
| `StdCapabilities.CapSpace.AddStdCap` | code/live-migration-automation/qemu-2.9.1-modified-files/hw/vfio/pci.c:1799-1871 | the recursion: the rest of the list is rebuilt first, each capability then inserted at the head; nothing outside its window changes |
| `StdCapabilities.CapSpace.InsertStdCap` | code/live-migration-automation/qemu-2.9.1-modified-files/hw/vfio/pci.c:1835-1861 | one capability goes in front of those behind it, or is skipped or refused |
| `StdCapabilities.CapSpace.BeginRebuild` | code/live-migration-automation/qemu-2.9.1-modified-files/hw/vfio/pci.c:1828-1833 | the rebuild starts from an empty list, its head and its status bit emulated |
| `StdCapabilities.CapSpace.StdCapMaxSize` | code/live-migration-automation/qemu-2.9.1-modified-files/hw/vfio/pci.c:1595-1608 | the size reaches to the next capability above, or the end of config space |
| `StdCapabilities.NextAbove` | code/live-migration-automation/qemu-2.9.1-modified-files/hw/vfio/pci.c:1595-1608 | the position above which no capability starts earlier |
| `StdCapabilities.WindowsDisjoint` | code/live-migration-automation/qemu-2.9.1-modified-files/hw/vfio/pci.c:1595-1608 | windows of different capabilities are disjoint, inside 256 bytes and hold their headers |
| `StdCapabilities.KeepIsFilter` | code/live-migration-automation/qemu-2.9.1-modified-files/hw/vfio/pci.c:1799-1871 | the kept list has exactly the kept capabilities of the physical one |
| `StdCapabilities.KeepInOrder` | code/live-migration-automation/qemu-2.9.1-modified-files/hw/vfio/pci.c:1799-1871 | any two kept capabilities are listed in their physical order |
| `StdCapabilities.CapSpace.PciAddCapability` | code/live-migration-automation/qemu-2.9.1-modified-files/hw/vfio/pci.c:1816-1821 | head insertion into the list |
| `StdCapabilities.GuestSeesChain` | code/live-migration-automation/qemu-2.9.1-modified-files/hw/vfio/pci.c:1828-1836 | with the pointers emulated the guest follows the rebuilt list whatever the device has |
| `StdCapabilities.FullyEmulatedByte` | code/live-migration-automation/qemu-2.9.1-modified-files/hw/vfio/pci.c:1835-1836 | a fully emulated byte hides the device's own |
| `ExtCapabilities.ExtSpace.AddExtCap` | code/live-migration-automation/qemu-2.9.1-modified-files/hw/vfio/pci.c:1873-1961 | the rebuilt list is 0x100 and then the kept positions in order; of what the guest reads, a dropped head has ID 0, the marker is gone, every kept capability has its own ID and version, and with nothing kept the header is zero |
| `ExtCapabilities.ExtSpace.PcieAddCapability` | code/live-migration-automation/qemu-2.9.1-modified-files/hw/vfio/pci.c:1888-1892 | tail insertion; at 0x100 the stub is overwritten |
| `ExtCapabilities.ExtSpace.Tail` | code/live-migration-automation/qemu-2.9.1-modified-files/hw/vfio/pci.c:1887-1892 | the end of the emulated list |
| `ExtCapabilities.ExtSpace.AddOne` | code/live-migration-automation/qemu-2.9.1-modified-files/hw/vfio/pci.c:1924-1952 | one round of the loop keeps the partial list |
| `ExtCapabilities.EmulatedMembers` | code/live-migration-automation/qemu-2.9.1-modified-files/hw/vfio/pci.c:1924-1952 | exactly the kept positions are listed |
| `ExtCapabilities.ExtSpace.ExtCapMaxSize` | code/live-migration-automation/qemu-2.9.1-modified-files/hw/vfio/pci.c:1611-1623 | the size reaches to the next capability above, or the end of config space |
| `ExtCapabilities.NextAbove` | code/live-migration-automation/qemu-2.9.1-modified-files/hw/vfio/pci.c:1611-1623 | the position above which no extended capability starts earlier |
| `ExtCapabilities.WindowsDisjoint` | code/live-migration-automation/qemu-2.9.1-modified-files/hw/vfio/pci.c:1611-1623 | the windows of extended capabilities are disjoint and inside 4096 bytes |
| `ExtCapabilities.EmulatedInOrder` | code/live-migration-automation/qemu-2.9.1-modified-files/hw/vfio/pci.c:1924-1952 | any two listed positions are in their original order |
| `ExtCapabilities.EmulatedStep` | code/live-migration-automation/qemu-2.9.1-modified-files/hw/vfio/pci.c:1924-1952 | one more capability looked at adds it or leaves the list alone |
| `ExtCapabilities.Finished` | code/live-migration-automation/qemu-2.9.1-modified-files/hw/vfio/pci.c:1954-1957 | removing the marker at the end |
| `ExtCapabilities.NothingKept` | code/live-migration-automation/qemu-2.9.1-modified-files/hw/vfio/pci.c:1895-1957 | a list without kept capabilities is the head alone |
| `ExtCapabilities.GuestFollowsEmulated` | code/live-migration-automation/qemu-2.9.1-modified-files/hw/vfio/pci.c:1919-1957 | what the guest follows and reads: the rebuilt list, IDs and versions, and the emulated dword at 0x100 |
| `MsixRegion.Region.FixupMsixRegion` | code/live-migration-automation/qemu-2.9.1-modified-files/hw/vfio/pci.c:1299-1365 | the mmaps left are disjoint, non-empty, page aligned and cover exactly the BAR minus the page-rounded table; other mmaps are left alone |
| `MsixRegion.CarvedCases` | code/live-migration-automation/qemu-2.9.1-modified-files/hw/vfio/pci.c:1325-1364 | the four ways the table can lie |
| `MsixRegion.PageRounding` | code/live-migration-automation/qemu-2.9.1-modified-files/hw/vfio/pci.c:1313-1316 | rounding down and up to pages |
| `MsixRegion.RemainderAligned` | code/live-migration-automation/qemu-2.9.1-modified-files/hw/vfio/pci.c:1318-1364 | what is left behind the table is whole pages |
| `HotReset.Host.Reset` | code/live-migration-automation/qemu-2.9.1-modified-files/hw/vfio/pci.c:2052-2230 | on every exit path the devices prepared are restored, the device itself last; result, reset request and `needs_reset` for every answer of the kernel |
| `HotReset.QuiescedOnce` | code/live-migration-automation/qemu-2.9.1-modified-files/hw/vfio/pci.c:2064-2226 | each device is prepared once and restored once, in an order that is a permutation |
| `HotReset.Host.ResetUsers` | code/live-migration-automation/qemu-2.9.1-modified-files/hw/vfio/pci.c:2096-2222 | the part between the information and the last restore |
| `HotReset.Host.Prepare` | code/live-migration-automation/qemu-2.9.1-modified-files/hw/vfio/pci.c:2096-2147 | stops at the first group that is not owned, or at the first user of a single reset |
| `HotReset.Host.Restore` | code/live-migration-automation/qemu-2.9.1-modified-files/hw/vfio/pci.c:2186-2222 | touches the same devices as the preparation, also when that stopped early |
| `HotReset.Host.Lookup` | code/live-migration-automation/qemu-2.9.1-modified-files/hw/vfio/pci.c:2110-2145 | what is found for one affected device: itself, an unowned group, nobody, or a user |
| `HotReset.FindIs` | code/live-migration-automation/qemu-2.9.1-modified-files/hw/vfio/pci.c:2110-2145 | itself exactly on equal names; unowned exactly if no group has the id; nobody exactly if the first such group has no PCI device of the name; otherwise the first such device |
| `HotReset.OwnedPrefixOnIds` | code/live-migration-automation/qemu-2.9.1-modified-files/hw/vfio/pci.c:2110-2127 | the preparation stops exactly at the first other device whose group id no group of QEMU has; a device of an owned group never stops it |
| `HotReset.ResetsExactly` | code/live-migration-automation/qemu-2.9.1-modified-files/hw/vfio/pci.c:2096-2180 | the bus reset is requested exactly if all groups are owned and either a single reset meets no user or a bus reset meets one |
| `HotReset.Host.CollectFds` | code/live-migration-automation/qemu-2.9.1-modified-files/hw/vfio/pci.c:2154-2177 | the fill loop writes exactly the counted fds |
| `HotReset.GroupFdsCount` | code/live-migration-automation/qemu-2.9.1-modified-files/hw/vfio/pci.c:2154-2163 | one fd for each owned group that has an affected device |
| `HotReset.GroupFdsAre` | code/live-migration-automation/qemu-2.9.1-modified-files/hw/vfio/pci.c:2169-2177 | they are in the order of the group list |
| `HotReset.UsersAre` | code/live-migration-automation/qemu-2.9.1-modified-files/hw/vfio/pci.c:2096-2147 | the devices prepared are exactly those found in use |
| `HotReset.UsersNoRepeat` | code/live-migration-automation/qemu-2.9.1-modified-files/hw/vfio/pci.c:2096-2147 | distinct affected devices give distinct prepared devices |
| `HotReset.NamesIdentify` | code/live-migration-automation/qemu-2.9.1-modified-files/hw/vfio/pci.c:2042-2050 | two devices with the same host name are at the same address |
| `EventThrottle.Monitor.Run` | code/live-migration-automation/qemu-2.9.1-modified-files/monitor.c:433-519 | over any interleaving of events, waiting and late timers: emissions of one key are a period apart and in order, a table entry exists exactly while its timer is pending, every event is emitted once, stored, or replaced by a later one of its key |
| `EventThrottle.Monitor.Drain` | code/live-migration-automation/qemu-2.9.1-modified-files/monitor.c:496-519 | after the last event every pending timer fires once, and once more if an event was stored with it; the table ends empty, and the last emission of every key is the last event queued |
| `EventThrottle.Monitor.FireNext` | code/live-migration-automation/qemu-2.9.1-modified-files/monitor.c:496-519 | one timer fires: either it sends what was stored or it forgets its key |
| `EventThrottle.Monitor.Queue` | code/live-migration-automation/qemu-2.9.1-modified-files/monitor.c:433-489 | the three branches: unthrottled, stored in place of an earlier one, emitted with a timer armed |
| `EventThrottle.Monitor.Expired` | code/live-migration-automation/qemu-2.9.1-modified-files/monitor.c:496-519 | the timer handler: emit and re-arm, or forget the key |
| `EventThrottle.TableIsKeyed` | code/live-migration-automation/qemu-2.9.1-modified-files/monitor.c:521-557 | equality of events is equality of keys, and equal keys hash equally |
| `EventThrottle.LastOneWins` | code/live-migration-automation/qemu-2.9.1-modified-files/monitor.c:496-519 | with nothing stored, the latest event of a key is its last emission |
| `EventThrottle.EmitNowSpaced` | code/live-migration-automation/qemu-2.9.1-modified-files/monitor.c:464-485 | an event without an entry may go out at once |
| `EventThrottle.EmitStoredSpaced` | code/live-migration-automation/qemu-2.9.1-modified-files/monitor.c:504-510 | a stored event may go out when its timer fires |
| `EventThrottle.StoreHeld` | code/live-migration-automation/qemu-2.9.1-modified-files/monitor.c:455-463 | a stored event is the latest of its key |
| `EventThrottle.StoreSuperseded` | code/live-migration-automation/qemu-2.9.1-modified-files/monitor.c:455-463 | it replaces only an earlier one of the same key |
| `EventThrottle.EmitNowHeld` | code/live-migration-automation/qemu-2.9.1-modified-files/monitor.c:464-485 | a new entry holds nothing |
| `EventThrottle.EmitStoredHeld` | code/live-migration-automation/qemu-2.9.1-modified-files/monitor.c:504-510 | after emission the entry holds nothing |
| `FdSets.Monitor.Run` | code/live-migration-automation/qemu-2.9.1-modified-files/monitor.c:1900-2199 | over any run of add, remove, dup and monitor events: ids non-negative and strictly increasing, no set empty on both lists, and every descriptor received is in exactly one place, listed or closed |
| `FdSets.Monitor.QmpAddFd` | code/live-migration-automation/qemu-2.9.1-modified-files/monitor.c:1932-1956 | a descriptor that cannot be added is closed, otherwise it is the first of its set |
| `FdSets.Monitor.AddFd` | code/live-migration-automation/qemu-2.9.1-modified-files/monitor.c:2035-2114 | the given id, or the smallest free one; only that set changes; a negative id is refused |
| `FdSets.Monitor.Search` | code/live-migration-automation/qemu-2.9.1-modified-files/monitor.c:2042-2053 | the search that stops early because the list is ordered |
| `FdSets.Monitor.Neighbour` | code/live-migration-automation/qemu-2.9.1-modified-files/monitor.c:2055-2099 | where the new set goes |
| `FdSets.Monitor.RemoveFd` | code/live-migration-automation/qemu-2.9.1-modified-files/monitor.c:1958-1994 | the first entry of the number, or every entry, is marked and no other; while the machine runs the set is left without the marked ones, which are closed; an unknown set or descriptor changes nothing |
| `FdSets.MarkedIs` | code/live-migration-automation/qemu-2.9.1-modified-files/monitor.c:1967-1983 | marking sets the flag of exactly the first entry of the number, or of all |
| `FdSets.MarkedCloses` | code/live-migration-automation/qemu-2.9.1-modified-files/monitor.c:1900-1994 | while the machine runs the clean-up leaves no marked entry, and the given number, or all numbers, are closed |
| `FdSets.Monitor.AddDup` | code/live-migration-automation/qemu-2.9.1-modified-files/monitor.c:2146-2166 | a dup is added unless the set is unknown or has it already |
| `FdSets.Monitor.FindDup` | code/live-migration-automation/qemu-2.9.1-modified-files/monitor.c:2168-2194 | the id of the first set used through the dup, or -1 |
| `FdSets.Monitor.FindHolder` | code/live-migration-automation/qemu-2.9.1-modified-files/monitor.c:2173-2188 | the first set with this dup |
| `FdSets.Monitor.RemoveDup` | code/live-migration-automation/qemu-2.9.1-modified-files/monitor.c:2168-2199 | the dup is taken out of the first set that has it; the last one triggers the clean-up |
| `FdSets.Monitor.CleanupSet` | code/live-migration-automation/qemu-2.9.1-modified-files/monitor.c:1900-1920 | what is closed and what is kept of a set, and whether the set goes |
| `FdSets.Monitor.CloseFds` | code/live-migration-automation/qemu-2.9.1-modified-files/monitor.c:1905-1914 | the loop closes and keeps the right descriptors |
| `FdSets.Monitor.Settle` | code/live-migration-automation/qemu-2.9.1-modified-files/monitor.c:1900-1920 | cleaning up one marked set keeps all invariants |
| `FdSets.Monitor.Cleanup` | code/live-migration-automation/qemu-2.9.1-modified-files/monitor.c:1922-1930 | all sets are cleaned although the list changes under the loop |
| `FdSets.Monitor.Disconnect` | code/live-migration-automation/qemu-2.9.1-modified-files/monitor.c:3860-3865 | one connection fewer, then every set is cleaned |
| `FdSets.CleanupLeaves` | code/live-migration-automation/qemu-2.9.1-modified-files/monitor.c:1900-1930 | while the machine runs nothing removed is left, and with no client only sets in use |
| `FdSets.ClosedAre` | code/live-migration-automation/qemu-2.9.1-modified-files/monitor.c:1905-1914 | closed are exactly those removed, or all of an idle set |
| `FdSets.CleanedExactly` | code/live-migration-automation/qemu-2.9.1-modified-files/monitor.c:1900-1920 | of a set a clean-up leaves its id, its duplicates and exactly the entries that are neither removed nor idle while the machine runs, and every number is kept or closed |
| `FdSets.KeptInOrder` | code/live-migration-automation/qemu-2.9.1-modified-files/monitor.c:1904-1913 | the descriptors kept are in their old order |
| `FdSets.AllCleanedAre` | code/live-migration-automation/qemu-2.9.1-modified-files/monitor.c:1922-1930 | cleaning all sets leaves exactly those that remain of each |
| `FdSets.KeptAre` | code/live-migration-automation/qemu-2.9.1-modified-files/monitor.c:1905-1914 | the others are kept |
| `FdSets.KeptOrClosed` | code/live-migration-automation/qemu-2.9.1-modified-files/monitor.c:1905-1914 | no descriptor is lost or closed twice by a clean-up |
| `FdSets.AllCleanedKeeps` | code/live-migration-automation/qemu-2.9.1-modified-files/monitor.c:1922-1930 | the same over all sets |
| `FdSets.AllCleanedSound` | code/live-migration-automation/qemu-2.9.1-modified-files/monitor.c:1922-1930 | order and non-emptiness survive the clean-up of all sets |
| `FdSets.OrderedDetermined` | code/live-migration-automation/qemu-2.9.1-modified-files/monitor.c:2091-2098 | an ordered list is determined by its sets |
| `ExprParser.RoundTrip` | code/live-migration-automation/qemu-2.9.1-modified-files/monitor.c:2298-2469 | what is written under the grammar with any gaps, brackets and literals is read as its tree at every level, errors included, up to what follows |
| `ExprParser.ArgumentEvaluated` | code/live-migration-automation/qemu-2.9.1-modified-files/monitor.c:2471-2483 | get_expr returns the value of the tree and stops at its end |
| `ExprParser.ArgumentAccepted` | code/live-migration-automation/qemu-2.9.1-modified-files/monitor.c:2471-2483 | the other direction: what get_expr evaluates without an error is an expression of the grammar with that value, up to where it stops |
| `ExprParser.NoOperand` | code/live-migration-automation/qemu-2.9.1-modified-files/monitor.c:2370-2386 | an argument that starts no operand is refused, and pch stays there |
| `ExprParser.Dangling` | code/live-migration-automation/qemu-2.9.1-modified-files/monitor.c:2392-2469 | an operator without an operand behind it is refused |
| `ExprParser.Unclosed` | code/live-migration-automation/qemu-2.9.1-modified-files/monitor.c:2328-2335 | a bracket that is not closed is refused |
| `ExprParser.BadCharacter` | code/live-migration-automation/qemu-2.9.1-modified-files/monitor.c:2336-2345 | a character constant that ends too early or is too long is refused |
| `ExprParser.Accepted` | code/live-migration-automation/qemu-2.9.1-modified-files/monitor.c:2298-2469 | the same at every level of the grammar |
| `ExprParser.AcceptedLoop` | code/live-migration-automation/qemu-2.9.1-modified-files/monitor.c:2392-2469 | what a loop has read is one operator tree grouped to the left |
| `ExprParser.AcceptedUnary` | code/live-migration-automation/qemu-2.9.1-modified-files/monitor.c:2309-2389 | the forms an operand can have |
| `ExprParser.AcceptedNumber` | code/live-migration-automation/qemu-2.9.1-modified-files/monitor.c:2374-2386 | the literals that are accepted |
| `ExprParser.BracketFits` | code/live-migration-automation/qemu-2.9.1-modified-files/monitor.c:2392-2469 | every tree can be written so, with brackets where operators bind too loosely |
| `ExprParser.ExactValue` | code/live-migration-automation/qemu-2.9.1-modified-files/monitor.c:2309-2469 | when no intermediate value leaves 64 bits the value is the one over the integers, the operations on bits being built bit by bit from the two's complement of their operands |
| `ExprParser.ApplyBits` | code/live-migration-automation/qemu-2.9.1-modified-files/monitor.c:2437-2444 | bit i of a result is the and, or or exclusive or of the bits i of the operands, for all 64 bits |
| `ExprParser.OneOperator` | code/live-migration-automation/qemu-2.9.1-modified-files/monitor.c:2392-2469 | two literals with *, + or - between them are multiplied, added or subtracted modulo 2^64 |
| `ExprParser.OneDivision` | code/live-migration-automation/qemu-2.9.1-modified-files/monitor.c:2409-2417 | two literals with / or % between them |
| `ExprParser.OneBitOperator` | code/live-migration-automation/qemu-2.9.1-modified-files/monitor.c:2423-2449 | two literals with the symbol of one of the operations on bits between them |
| `ExprParser.OneSign` | code/live-migration-automation/qemu-2.9.1-modified-files/monitor.c:2315-2327 | a literal behind +, - or ~; a sign binds tighter than a product |
| `ExprParser.TwoOperators` | code/live-migration-automation/qemu-2.9.1-modified-files/monitor.c:2392-2469 | products bind tightest, then the operations on bits, then sums, and operators that bind alike are grouped to the left |
| `ExprParser.WrapIs` | code/live-migration-automation/qemu-2.9.1-modified-files/monitor.c:2307-2464 | a value is the integer's residue modulo 2^64 |
| `ExprParser.NumberSpelled` | code/live-migration-automation/qemu-2.9.1-modified-files/monitor.c:2374-2386 | the digits of a number in any base up to 16 are read as that number |
| `ExprParser.TruncatedDivision` | code/live-migration-automation/qemu-2.9.1-modified-files/monitor.c:2409-2417 | division rounds towards zero |
| `ExprParser.BinaryRoundTrip` | code/live-migration-automation/qemu-2.9.1-modified-files/monitor.c:2392-2469 | the loops group operators of one level to the left |
| `ExprParser.UnaryRoundTrip` | code/live-migration-automation/qemu-2.9.1-modified-files/monitor.c:2309-2389 | signs, brackets, constants and registers |
| `ExprParser.NumberParsed` | code/live-migration-automation/qemu-2.9.1-modified-files/monitor.c:2374-2386 | decimal, octal and hexadecimal numbers, and numbers that are too large |
| `ExprParser.RegisterParsed` | code/live-migration-automation/qemu-2.9.1-modified-files/monitor.c:2346-2369 | a register name of any length is looked up by its first 127 characters |
| `ExprParser.CutIs` | code/live-migration-automation/qemu-2.9.1-modified-files/monitor.c:2352-2360 | a name is looked up by its first 127 characters |
| `ExprParser.CharParsed` | code/live-migration-automation/qemu-2.9.1-modified-files/monitor.c:2336-2345 | a character constant is a signed byte |
| `ExprParser.SignedCharIs` | code/live-migration-automation/qemu-2.9.1-modified-files/monitor.c:2336-2345 | the constant is the signed byte with these bits |
| `ExprParser.Evaluator.ExprUnary` | code/live-migration-automation/qemu-2.9.1-modified-files/monitor.c:2309-2389 | the method on pch does what the grammar function says, position included |
| `ExprParser.Evaluator.ExprProd` | code/live-migration-automation/qemu-2.9.1-modified-files/monitor.c:2392-2421 | likewise |
| `ExprParser.Evaluator.ExprLogic` | code/live-migration-automation/qemu-2.9.1-modified-files/monitor.c:2423-2449 | likewise for the operations on bits |
| `ExprParser.Evaluator.ExprSum` | code/live-migration-automation/qemu-2.9.1-modified-files/monitor.c:2451-2469 | likewise; the mutual recursion terminates on remaining input and level |
| `ExprParser.Evaluator.Evaluate` | code/live-migration-automation/qemu-2.9.1-modified-files/monitor.c:2471-2483 | likewise |
| `Tokenizer.QuotedListParsed` | code/live-migration-automation/qemu-2.9.1-modified-files/monitor.c:650-775 | quoting a list and parsing it gives the list back exactly when it has at most 16 entries of fewer than 1024 characters |
| `Tokenizer.LineParsed` | code/live-migration-automation/qemu-2.9.1-modified-files/monitor.c:743-775 | any line of quoted and plain items with any gaps is read as what was meant, long items cut to 1023 characters; more than 16 fail |
| `Tokenizer.ArgumentsOfLine` | code/live-migration-automation/qemu-2.9.1-modified-files/monitor.c:743-775 | parsing resumes behind an argument that was cut |
| `Tokenizer.AcceptedLine` | code/live-migration-automation/qemu-2.9.1-modified-files/monitor.c:743-775 | the other direction: every line that is accepted is a row of quoted and plain items |
| `Tokenizer.AcceptedQuoted` | code/live-migration-automation/qemu-2.9.1-modified-files/monitor.c:667-702 | what is accepted between quotes |
| `Tokenizer.AcceptedToken` | code/live-migration-automation/qemu-2.9.1-modified-files/monitor.c:650-714 | one argument that is accepted |
| `Tokenizer.UnquoteSpelled` | code/live-migration-automation/qemu-2.9.1-modified-files/monitor.c:667-702 | escapes and quotes are undone |
| `Tokenizer.TokenWritten` | code/live-migration-automation/qemu-2.9.1-modified-files/monitor.c:650-714 | one item is read and what follows is left |
| `Tokenizer.Parser.GetStr` | code/live-migration-automation/qemu-2.9.1-modified-files/monitor.c:650-714 | the buffer holds the first characters of the argument that fit |
| `Tokenizer.Parser.GetQuoted` | code/live-migration-automation/qemu-2.9.1-modified-files/monitor.c:667-702 | the quoted loop, whose reading goes on when the buffer is full |
| `Tokenizer.Parser.GetBare` | code/live-migration-automation/qemu-2.9.1-modified-files/monitor.c:703-711 | the loop over a plain word |
| `Tokenizer.Parser.ParseCmdline` | code/live-migration-automation/qemu-2.9.1-modified-files/monitor.c:743-775 | the array holds the arguments, or the line is refused |
| `Realize.Device.SetRealized` | code/live-migration-automation/qemu-2.9.1-modified-files/hw/core/qdev.c:1085-1214 | success brings everything up; failure at any stage leaves flag, parent, vmstate, buses and counter as before; unrealizing takes every step once and in order, and an error keeps the flag |
| `Realize.FailureUndone` | code/live-migration-automation/qemu-2.9.1-modified-files/hw/core/qdev.c:1102-1214 | in the calls of a failed attempt unrealize occurs once exactly if the realize stage was passed, and registration, buses and parking are undone |
| `Realize.SucceedsExactly` | code/live-migration-automation/qemu-2.9.1-modified-files/hw/core/qdev.c:1085-1160 | an attempt succeeds exactly when the checks pass and every call it makes succeeds |
| `Realize.StageReached` | code/live-migration-automation/qemu-2.9.1-modified-files/hw/core/qdev.c:1085-1160 | each stage is run exactly when all those before it succeeded, and never twice |
| `Realize.OneShotInOrder` | code/live-migration-automation/qemu-2.9.1-modified-files/hw/core/qdev.c:1085-1214 | whatever fails, the calls come in the order parking, pre-plug, realize, listeners, plug, registration, buses, then those that undo them |
| `Realize.TimesSucceeded` | code/live-migration-automation/qemu-2.9.1-modified-files/hw/core/qdev.c:1085-1160 | how often a successful attempt makes each call |
| `Realize.Device.Raise` | code/live-migration-automation/qemu-2.9.1-modified-files/hw/core/qdev.c:1102-1160 | which stage fails first, and the calls made up to it |
| `Realize.Device.Begin` | code/live-migration-automation/qemu-2.9.1-modified-files/hw/core/qdev.c:1103-1133 | the checks and stages up to dc->realize, and whether the device was parked |
| `Realize.Device.BusesUp` | code/live-migration-automation/qemu-2.9.1-modified-files/hw/core/qdev.c:1154-1160 | the buses up to the first that fails |
| `Realize.Device.BusesDown` | code/live-migration-automation/qemu-2.9.1-modified-files/hw/core/qdev.c:1194-1197 | every bus is tried |
| `Realize.Device.Attempt` | code/live-migration-automation/qemu-2.9.1-modified-files/hw/core/qdev.c:1102-1214 | the realizing branch with its roll-back |
| `Realize.Device.Finish` | code/live-migration-automation/qemu-2.9.1-modified-files/hw/core/qdev.c:1135-1206 | listeners, plug, vmstate and child buses with their roll-back |
| `Realize.Device.Withdraw` | code/live-migration-automation/qemu-2.9.1-modified-files/hw/core/qdev.c:1166-1183 | unrealizing does every step although one fails: all buses, the registration, unrealize and the listeners, once each and in that order |
| `Realize.CallsUnrealize` | code/live-migration-automation/qemu-2.9.1-modified-files/hw/core/qdev.c:1166-1183 | how often and in which order unrealizing makes each call |
| `Realize.Device.TopHalf` | code/live-migration-automation/qemu-2.9.1-modified-files/hw/core/qdev.c:898-1009 | the first half with its own roll-back and its own counter |
| `Realize.TopHalfSegments` | code/live-migration-automation/qemu-2.9.1-modified-files/hw/core/qdev.c:898-1009 | the table of the first half is the beginning of the one-shot form |
| `Realize.Device.BottomHalf` | code/live-migration-automation/qemu-2.9.1-modified-files/hw/core/qdev.c:1011-1070 | the second half, which runs whatever the first one did |
| `Realize.Device.RaiseHalf` | code/live-migration-automation/qemu-2.9.1-modified-files/hw/core/qdev.c:1038-1044 | its loop over the child buses |
| `Realize.Device.ChildFailHalf` | code/live-migration-automation/qemu-2.9.1-modified-files/hw/core/qdev.c:1054-1069 | its roll-back |
| `Realize.BottomHalfSegments` | code/live-migration-automation/qemu-2.9.1-modified-files/hw/core/qdev.c:1011-1070 | the table of the second half is the rest of the one-shot form |
| `Realize.Device.QmpTopHalf` | code/live-migration-automation/qemu-2.9.1-modified-files/qdev-monitor.c:902-911 | the flag is set even after an error |
| `Realize.HalvesMakeTheSameCalls` | code/live-migration-automation/qemu-2.9.1-modified-files/hw/core/qdev.c:898-1070 | without a failure the calls of the two halves, each specified by a table of its own, are those of the one-shot form with the reset moved ahead |
| `Realize.FormsCompared` | code/live-migration-automation/qemu-2.9.1-modified-files/hw/core/qdev.c:898-1214 | for every stage of failure: the forms differ exactly in the place of the reset and in the unparking that the halves omit after a late failure |
| `Realize.FailureIsEither` | code/live-migration-automation/qemu-2.9.1-modified-files/hw/core/qdev.c:909-1160 | the one-shot form fails where the first half fails and otherwise where the second does |
| `Realize.BothForms` | code/live-migration-automation/qemu-2.9.1-modified-files/hw/core/qdev.c:898-1214 | the three transcriptions compared on two equal devices: they end alike without a failure, and their flags agree exactly when no stage fails |
| `Realize.RefusedIsFlagged` | code/live-migration-automation/qemu-2.9.1-modified-files/qdev-monitor.c:902-920 | of two equal devices that must not be migrated, the one realized in halves has its flag set although realize was never called |
| `Realize.NewDevicesCompared` | code/live-migration-automation/qemu-2.9.1-modified-files/hw/core/qdev.c:898-1214 | the comparison of the forms for two new devices of any traits under any circumstances |
| `Realize.SplitRollback` | code/live-migration-automation/qemu-2.9.1-modified-files/hw/core/qdev.c:1011-1070 | in halves, unrealize without a passed realize stage happens exactly when both halves fail |
| `Realize.SplitParking` | code/live-migration-automation/qemu-2.9.1-modified-files/hw/core/qdev.c:1001-1070 | a device parked by the first half stays parked |
| `BusMembership.SetParentBus` | code/live-migration-automation/qemu-2.9.1-modified-files/hw/core/qdev.c:109-128 | a device is among the children of its parent bus and no other, once, with one reference held; every child holds one on its bus; a full bus stays full |
| `BusMembership.Bus.AddChild` | code/live-migration-automation/qemu-2.9.1-modified-files/hw/core/qdev.c:88-107 | the new child is first and has a fresh index |
| `BusMembership.Bus.RemoveChild` | code/live-migration-automation/qemu-2.9.1-modified-files/hw/core/qdev.c:68-86 | exactly that child goes, and the room is not given back |
| `BusMembership.WithoutHolds` | code/live-migration-automation/qemu-2.9.1-modified-files/hw/core/qdev.c:68-86 | removal takes out this device and keeps all others |
| `BusMembership.NewNumbered` | code/live-migration-automation/qemu-2.9.1-modified-files/hw/core/qdev.c:88-107 | indices stay distinct and decreasing |
| `BusSearch.FindRecursive` | code/live-migration-automation/qemu-2.9.1-modified-files/qdev-monitor.c:417-452 | the recursive search returns the pick of the preorder list of the tree |
| `BusSearch.Placed` | code/live-migration-automation/qemu-2.9.1-modified-files/qdev-monitor.c:416-452 | every bus of the tree has a place in the preorder list |
| `BusSearch.PlacedInOrder` | code/live-migration-automation/qemu-2.9.1-modified-files/qdev-monitor.c:416-452 | a bus comes before those below it, which are listed device by device and bus by bus |
| `BusSearch.Reached` | code/live-migration-automation/qemu-2.9.1-modified-files/qdev-monitor.c:416-452 | nothing else is in the list |
| `BusSearch.FirstFreePicked` | code/live-migration-automation/qemu-2.9.1-modified-files/qdev-monitor.c:408-452 | the pick is the first match that is not full |
| `BusSearch.FirstMatchPicked` | code/live-migration-automation/qemu-2.9.1-modified-files/qdev-monitor.c:408-452 | without one it is the first match |
| `BusSearch.PickExists` | code/live-migration-automation/qemu-2.9.1-modified-files/qdev-monitor.c:408-452 | null exactly when nothing matches |
| `BusSearch.PickAppend` | code/live-migration-automation/qemu-2.9.1-modified-files/qdev-monitor.c:436-449 | how picks of consecutive subtrees combine |
| `DirectTimer.Guest.Trace` | code/guest-share-pid/did.c:183-233 | over any interleaving on all processors a processor that is set up has its timer bit set or an interrupt taken, and the saved handler never runs before the event is due |
| `DirectTimer.Guest.SetupDtid` | code/guest-share-pid/did.c:702-728 | what set-up installs and saves for each answer of the hypervisor, with the descriptor on the processor's page at the given offset; failure is reported for a zero factor although delivery is set up; other processors are untouched |
| `DirectTimer.Guest.RestoreDtid` | code/guest-share-pid/did.c:730-756 | the handler comes back; the factors exactly if they were replaced or the saved ones agree |
| `DirectTimer.Guest.SetupAndRestore` | code/guest-share-pid/did.c:702-756 | set-up, anything in between, restore: clock and handler as before exactly if both factors are nonzero or the saved ones agree |
| `DirectTimer.Guest.HandleDirect` | code/guest-share-pid/did.c:219-233 | early interrupts are bypassed with the bit set again, others run the saved handler; if that is this one again, no number of nested calls ends it |
| `DirectTimer.Guest.BypassEarly` | code/guest-share-pid/did.c:199-217 | a mapped processor has its timer bit set afterwards, early or not; early means before the next event |
| `DirectTimer.Guest.SetFactors` | code/guest-share-pid/did.c:345-373 | the factors are cut to 32 bits and both or neither replaced |
| `DirectTimer.Guest.Handle` | code/guest-share-pid/did.c:219-233 | an interrupt that was taken is handled by the handler in place |
| `DirectTimer.Guest.SaveTwice` | code/guest-share-pid/did.c:219-250 | saving the handler twice loses the kernel's, and a due interrupt has not returned after any number of nested calls |
| `DirectTimer.Guest.SaveAndRestore` | code/guest-share-pid/did.c:240-260 | saving once and restoring leaves the clock event as it was |

## Left out

Assumptions under which the statements hold:

- VfioInterrupts.VfioDevice.RunAndExit: assumes that initialising a vector's own eventfd succeeds, and that disabling an interrupt index, masking INTx and updating the message of a live route succeed; every other set-up call may fail.
- VfioInterrupts.VfioDevice.WriteConfig: for a guest that makes naturally aligned writes and never enables MSI and MSI-X together (PCI Local Bus Specification 3.0, section 6.8), and capabilities that do not overlap.
- VfioInterrupts.VfioDevice.AssignIntx: VFIO and KVM let go of an INTx eventfd by themselves when it is closed, and KVM takes an eventfd only once.
- VfioInterrupts.VfioDevice.GuestTableWrite: the guest changes an MSI-X table entry only while it is masked, and does not change the number of MSI vectors while MSI is enabled.
- VfioInterrupts.VfioDevice.MsiEnable: a retry uses fewer vectors than the attempt before; a host that answers with more than it was asked for counts as refusing.
- VfioInterrupts.VfioDevice.SetVectorNotifiers: the MSI-X core calls back after it has changed the mask, once for each vector that changed.
- StdCapabilities.CapSpace.AddStdCapabilities: the device's list has no cycle, its headers lie at or above 0x40 and do not overlap, and setting up the body of a capability writes only behind its header and inside its window.
- StdCapabilities.CapSpace.PciAddCapability: head insertion is what the source's comment says of a function it does not contain; likewise tail insertion in ExtCapabilities.ExtSpace.PcieAddCapability.
- ExtCapabilities.ExtSpace.AddExtCap: the device's list has no cycle; positions and sizes are numbers of dwords.
- ConfigView.VfioConfig.GuestRun: the default write honours `wmask`, and no write-1-to-clear bit lies in the field.
- HotReset.QuiescedOnce: the kernel lists each affected device once, with numbers that fit the name format.
- EventThrottle.Monitor.Run: the clock does not go back, no timer fires early, and a timer's expiry and its handler are one step.
- ExprParser.ArgumentEvaluated: lines are text of single-byte characters without NUL, which ends the string in C; the same holds for Tokenizer.ParseCmdline.
- ExprParser.RoundTrip: INT64_MIN divided by -1 faults on the hardware; the evaluator is modelled as ending with an error there.
- Realize.Device.SetRealized: that no child bus is left realized needs every attempt to take one down to succeed.
- Realize.HalvesMakeTheSameCalls: resetting a device is taken to be independent of plugging, listeners and vmstate. Plug handlers and realize listeners are not undone by a roll-back, in the code as in the model.
- DirectTimer.Guest.Trace: one ioctl and one run of the handler are single steps, so a lost update of the non-atomic bit write does not occur; set-up and restore alternate on each processor, and the kernel does not replace the clock event's handler in between.
- DirectTimer.Guest.SetupDtid: the hypervisor's offset is inside a page.

Not modelled:

- The contents of ioctl, pread and pwrite requests; eventfds, character devices and sockets. Their results are arbitrary.
- The BAR and command register branches of `vfio_pci_write_config`.
- The reset of a single device, and what `vfio_pci_pre_reset` and `vfio_pci_post_reset` do to one device.
- The setup functions of single capabilities, ROM, VGA and quirks, and the error and request notifiers.
- Freeing through a dangling pointer: only how often it happens is counted.
- The linked lists of the monitor and of the buses are sequences; a hash table is a map from keys, which `EventThrottle.TableIsKeyed` justifies.
- `monitor_fdset_get_fd`, which picks a descriptor by access mode and does not skip removed ones, and the query commands.
- Command tables, completion, help, printing, and everything in `hmp.c`.
- `osnet_qdev_device_add`, option parsing, and the rest of the device tree beyond child buses.
- The migration agents and shell scripts, whose actions are outside the C code.
- Page walks, CR0 toggling, interrupts between processors, the ioctl dispatch of the module, and the vmcs and vmx modules.
