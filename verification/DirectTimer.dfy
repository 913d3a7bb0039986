/**
 * Timer interrupts delivered to a guest directly: the hardware may deliver them early, the guest's handler sorts that
 * out.
 */
module DirectTimer {

  // The kernel's own handlers, and the one the module puts in front of them.
  datatype Handler = Native(id: nat) | Direct

  datatype ClockEvent = ClockEvent(mult: nat, shift: nat, handler: Handler, nextEvent: int)

  // What the module keeps for a processor; start is 0 as long as the posted-interrupt descriptor is not mapped.
  datatype Did = Did(pid: nat, start: nat, mult: nat, shift: nat, handler: Handler)

  // pir is the timer bit in the posted-interrupt bitmap; taken is an interrupt the processor has accepted.
  datatype Cpu = Cpu(event: ClockEvent, did: Did, pir: bool, taken: bool)

  // Between a set-up and the restore that undoes it; took tells whether the clock's factors were replaced.
  datatype Phase = Idle | Active(before: ClockEvent, took: bool)

  // The saved handler was run by the module's at this time, the clock event being due then.
  datatype Run = Run(cpu: nat, time: int, due: int)

  const PAGE := 4096
  const TWO32 := 0x1_0000_0000

  ghost predicate Sound(c: Cpu, p: Phase) {
    match p
    case Idle => c.event.handler.Native?
    case Active(before, took) =>
      && c.did.start != 0
      && c.event.handler == Direct
      && c.did.handler == before.handler && before.handler.Native?
      // The next timer interrupt is always on its way.
      && (c.pir || c.taken)
      && (took ==> c.did.mult == before.mult && c.did.shift == before.shift)
      && (!took ==> c.event.mult == before.mult && c.event.shift == before.shift)
  }

  datatype Action =
    | Setup(cpu: nat, offset: int, mult: nat, shift: nat)
    | Restore(cpu: nat, res: bool)
    | Deliver(cpu: nat)
    | Interrupt(cpu: nat)
    | Handle(cpu: nat)
    | Arm(cpu: nat, nextEvent: int)
    | Tick(time: nat)

  class Guest {
    var cpus: seq<Cpu>
    var now: int
    var runs: seq<Run>
    // How the program that drives the module sees each processor.
    var phases: seq<Phase>

    ghost predicate Valid()
      reads this
    {
      && |phases| == |cpus|
      && (forall c | 0 <= c < |cpus| :: cpus[c].did.pid >= PAGE && Sound(cpus[c], phases[c]))
      && (forall r | 0 <= r < |runs| :: runs[r].due <= runs[r].time)
    }

    constructor (events: seq<ClockEvent>, pages: seq<nat>)
      requires |events| == |pages| && forall c | 0 <= c < |pages| :: events[c].handler.Native? && pages[c] >= PAGE
      ensures Valid() && |cpus| == |events| && runs == []
      ensures forall c | 0 <= c < |cpus| :: phases[c] == Idle && cpus[c].event == events[c]
    {
      cpus := seq(|events|,
                  c requires 0 <= c < |events| => Cpu(events[c], Did(pages[c], 0, 0, 0, Native(0)), false, false));
      now, runs, phases := 0, [], seq(|events|, c => Idle);
    }

    // set_clockevent_factor: the hypervisor's factors, cut to 32 bits, unless one of them is zero.
    method SetFactors(c: nat, mult: nat, shift: nat) returns (ok: bool)
      requires c < |cpus|
      modifies this`cpus
      ensures ok == (mult % TWO32 > 0 && shift % TWO32 > 0)
      ensures !ok ==> cpus == old(cpus)
      ensures ok ==>
                var was := old(cpus)[c];
                cpus == old(cpus)[c := was.(did := was.did.(mult := was.event.mult, shift := was.event.shift),
                                            event := was.event.(mult := mult % TWO32, shift := shift % TWO32))]
    {
      var m, s := mult % TWO32, shift % TWO32;
      ok := m > 0 && s > 0;
      if ok {
        var cpu := cpus[c];
        cpu := cpu.(did := cpu.did.(mult := cpu.event.mult, shift := cpu.event.shift));
        cpus := cpus[c := cpu.(event := cpu.event.(mult := m, shift := s))];
      }
    }

    method RestoreFactors(c: nat)
      requires c < |cpus|
      modifies this`cpus
      ensures var was := old(cpus)[c];
              cpus == old(cpus)[c := was.(event := was.event.(mult := was.did.mult, shift := was.did.shift))]
    {
      var cpu := cpus[c];
      cpus := cpus[c := cpu.(event := cpu.event.(mult := cpu.did.mult, shift := cpu.did.shift))];
    }

    method SetHandler(c: nat)
      requires c < |cpus|
      modifies this`cpus
      ensures var was := old(cpus)[c];
              cpus == old(cpus)[c := was.(did := was.did.(handler := was.event.handler),
                                          event := was.event.(handler := Direct))]
    {
      var cpu := cpus[c];
      cpu := cpu.(did := cpu.did.(handler := cpu.event.handler));
      cpus := cpus[c := cpu.(event := cpu.event.(handler := Direct))];
    }

    method RestoreHandler(c: nat)
      requires c < |cpus|
      modifies this`cpus
      ensures var was := old(cpus)[c];
              cpus == old(cpus)[c := was.(event := was.event.(handler := was.did.handler))]
    {
      var cpu := cpus[c];
      cpus := cpus[c := cpu.(event := cpu.event.(handler := cpu.did.handler))];
    }

    /**
     * hc_setup_dtid with the hypervisor's answers. A negative offset refuses.
     * When a factor is zero it reports failure although delivery is set up.
     */
    method SetupDtid(c: nat, offset: int, mult: nat, shift: nat) returns (ok: bool)
      requires Valid() && c < |cpus| && phases[c] == Idle && offset < PAGE
      modifies this`cpus, this`phases
      ensures Valid() && |cpus| == |old(cpus)|
      ensures forall d | 0 <= d < |cpus| && d != c :: cpus[d] == old(cpus)[d] && phases[d] == old(phases)[d]
      ensures offset < 0 ==> cpus == old(cpus) && phases == old(phases)
      ensures offset >= 0 ==>
                phases[c] == Active(old(cpus)[c].event, mult % TWO32 > 0 && shift % TWO32 > 0) && cpus[c].pir
      ensures ok == (offset >= 0 && mult % TWO32 > 0 && shift % TWO32 > 0)
      ensures ok ==> cpus[c].event == ClockEvent(mult % TWO32, shift % TWO32, Direct, old(cpus)[c].event.nextEvent)
      ensures ok ==>
                cpus[c].did.mult == old(cpus)[c].event.mult && cpus[c].did.shift == old(cpus)[c].event.shift
      ensures offset >= 0 && !ok ==> cpus[c].event == old(cpus)[c].event.(handler := Direct)
      ensures offset >= 0 && !ok ==>
                cpus[c].did.mult == old(cpus)[c].did.mult && cpus[c].did.shift == old(cpus)[c].did.shift
      // The descriptor is the one on the processor's page, at this offset.
      ensures offset >= 0 ==>
                && cpus[c].did.pid == old(cpus)[c].did.pid && cpus[c].taken == old(cpus)[c].taken
                && cpus[c].did.start / PAGE == cpus[c].did.pid / PAGE && cpus[c].did.start % PAGE == offset
    {
      if offset < 0 {
        return false;
      }
      phases := phases[c := Active(cpus[c].event, mult % TWO32 > 0 && shift % TWO32 > 0)];
      ok := SetFactors(c, mult, shift);
      SetHandler(c);
      var cpu := cpus[c];
      cpu := cpu.(did := cpu.did.(start := cpu.did.pid / PAGE * PAGE + offset));
      cpus := cpus[c := cpu.(pir := true)];
    }

    /**
     * hc_restore_dtid. The handler is the one from before the set-up. The clock's factors are those from before
     * exactly when the set-up replaced them, or what was saved by an earlier one happens to agree.
     */
    method RestoreDtid(c: nat, res: bool) returns (ok: bool)
      requires Valid() && c < |cpus| && phases[c].Active?
      modifies this`cpus, this`phases
      ensures Valid() && ok == res && |cpus| == |old(cpus)|
      ensures forall d | 0 <= d < |cpus| && d != c :: cpus[d] == old(cpus)[d] && phases[d] == old(phases)[d]
      ensures !ok ==> cpus == old(cpus) && phases == old(phases)
      ensures ok ==> phases[c] == Idle && cpus[c].did.start == 0
      ensures ok ==> cpus[c].event.handler == old(phases)[c].before.handler
      ensures ok ==> cpus[c].event.nextEvent == old(cpus)[c].event.nextEvent
      ensures ok ==>
                (cpus[c].event.mult == old(phases)[c].before.mult && cpus[c].event.shift == old(phases)[c].before.shift
                 <==>
                 old(phases)[c].took || (old(cpus)[c].did.mult == old(phases)[c].before.mult
                                         && old(cpus)[c].did.shift == old(phases)[c].before.shift))
    {
      ok := res;
      if res {
        RestoreFactors(c);
        RestoreHandler(c);
        cpus := cpus[c := cpus[c].(did := cpus[c].did.(start := 0))];
        phases := phases[c := Idle];
      }
    }

    // bypass_early_timer_interrupt: keeps the bit set and tells whether the interrupt came early.
    method BypassEarly(c: nat) returns (early: bool)
      requires c < |cpus|
      modifies this`cpus
      ensures early == (old(cpus)[c].did.start != 0 && now < old(cpus)[c].event.nextEvent)
      ensures cpus == old(cpus)[c := old(cpus)[c].(pir := old(cpus)[c].pir || old(cpus)[c].did.start != 0)]
    {
      early := false;
      if cpus[c].did.start != 0 {
        cpus := cpus[c := cpus[c].(pir := true)];
        early := now < cpus[c].event.nextEvent;
      }
    }

    /**
     * timer_interrupt_handler, followed for at most |delays| calls of itself. Each call reads the clock anew, delays[0]
     * later than the one before.
     * It comes back from the first call or, when it has been saved as its own handler and the interrupt is not early,
     * from none, however many are allowed.
     */
    method HandleDirect(c: nat, delays: seq<nat>) returns (ended: bool)
      requires c < |cpus|
      modifies this`cpus, this`runs, this`now
      ensures var was := old(cpus)[c];
              var early := was.did.start != 0 && old(now) < was.event.nextEvent;
              && ended == (delays != [] && (early || was.did.handler != Direct))
              && runs == old(runs) + (if ended && !early then [Run(c, old(now), was.event.nextEvent)] else [])
              && cpus == old(cpus)[c := was.(pir := was.pir || (delays != [] && was.did.start != 0))]
              && now >= old(now) && (ended ==> now == old(now))
      decreases |delays|
    {
      if delays == [] {
        return false;
      }
      var early := BypassEarly(c);
      if early {
        return true;
      }
      if cpus[c].did.handler == Direct {
        now := now + delays[0];
        ended := HandleDirect(c, delays[1..]);
        return;
      }
      runs := runs + [Run(c, now, cpus[c].event.nextEvent)];
      return true;
    }

    // The processor runs the handler of its clock event for an interrupt it has taken.
    method Handle(c: nat)
      requires Valid() && c < |cpus| && cpus[c].taken
      modifies this`cpus, this`runs, this`now
      ensures Valid() && now == old(now)
      ensures var was := old(cpus)[c];
              cpus == old(cpus)[c := was.(pir := was.pir || (was.event.handler == Direct && was.did.start != 0),
                                          taken := false)]
      ensures phases[c].Active? ==> cpus[c].pir
      ensures phases[c].Active? ==>
                runs == old(runs) + if now < cpus[c].event.nextEvent then [] else [Run(c, now, cpus[c].event.nextEvent)]
      ensures phases[c].Idle? ==> runs == old(runs)
    {
      if cpus[c].event.handler == Direct {
        assert phases[c].Active?;
        var came := HandleDirect(c, [0]);
        assert came;
      }
      cpus := cpus[c := cpus[c].(taken := false)];
    }

    // The hardware takes the bit out of the bitmap and interrupts the processor, early or not.
    method Deliver(c: nat)
      requires Valid() && c < |cpus| && cpus[c].pir
      modifies this`cpus
      ensures Valid() && cpus == old(cpus)[c := old(cpus)[c].(pir := false, taken := true)]
    {
      cpus := cpus[c := cpus[c].(pir := false, taken := true)];
    }

    /** Any interleaving on all processors, with set-up and restore alternating on each. */
    method Trace(script: seq<Action>)
      requires Valid()
      modifies this
      ensures Valid() && |cpus| == |old(cpus)|
      ensures forall c | 0 <= c < |cpus| && phases[c].Active? :: cpus[c].pir || cpus[c].taken
      ensures forall r | 0 <= r < |runs| :: runs[r].due <= runs[r].time
      ensures forall c | 0 <= c < |cpus| && Quiet(script, c) ::
                phases[c] == old(phases)[c] && SetAlike(cpus[c], old(cpus)[c])
    {
      hide Sound;
      for i := 0 to |script|
        invariant Valid() && |cpus| == |old(cpus)|
        invariant forall c | 0 <= c < |cpus| && Quiet(script, c) ::
                  phases[c] == old(phases)[c] && SetAlike(cpus[c], old(cpus)[c])
      {
        match script[i]
        case Setup(c, offset, mult, shift) =>
          if c < |cpus| && phases[c] == Idle && offset < PAGE {
            var _ := SetupDtid(c, offset, mult, shift);
          }
        case Restore(c, res) =>
          if c < |cpus| && phases[c].Active? {
            var _ := RestoreDtid(c, res);
          }
        case Deliver(c) =>
          if c < |cpus| && cpus[c].pir {
            Deliver(c);
          }
        case Interrupt(c) =>
          if c < |cpus| {
            Interrupt(c);
          }
        case Handle(c) =>
          if c < |cpus| && cpus[c].taken {
            Handle(c);
          }
        case Arm(c, nextEvent) =>
          if c < |cpus| {
            Arm(c, nextEvent);
          }
        case Tick(time) => now := now + time;
      }
      assert forall c | 0 <= c < |cpus| && phases[c].Active? :: cpus[c].pir || cpus[c].taken by {
        forall c | 0 <= c < |cpus| && phases[c].Active?
          ensures cpus[c].pir || cpus[c].taken
        {
          OnItsWay(cpus[c], phases[c]);
        }
      }
    }

    // An interrupt that the hypervisor injects as usual.
    method Interrupt(c: nat)
      requires Valid() && c < |cpus|
      modifies this`cpus
      ensures Valid() && cpus == old(cpus)[c := old(cpus)[c].(taken := true)]
    {
      cpus := cpus[c := cpus[c].(taken := true)];
    }

    // The kernel programs the next event.
    method Arm(c: nat, nextEvent: int)
      requires Valid() && c < |cpus|
      modifies this`cpus
      ensures Valid() && cpus == old(cpus)[c := old(cpus)[c].(event := old(cpus)[c].event.(nextEvent := nextEvent))]
    {
      cpus := cpus[c := cpus[c].(event := cpus[c].event.(nextEvent := nextEvent))];
    }

    /**
     * Set up, anything else happening in between, and restored: the processor has its clock and handler back.
     * This needs both factors of the hypervisor.
     */
    method SetupAndRestore(c: nat, offset: nat, mult: nat, shift: nat, script: seq<Action>)
      requires Valid() && c < |cpus| && phases[c] == Idle && offset < PAGE && Quiet(script, c)
      modifies this
      ensures Valid() && |cpus| == |old(cpus)| && phases[c] == Idle
      ensures cpus[c].event.handler == old(cpus)[c].event.handler
      ensures var was := old(cpus)[c];
              cpus[c].event.mult == was.event.mult && cpus[c].event.shift == was.event.shift
              <==>
              (mult % TWO32 > 0 && shift % TWO32 > 0)
              || (was.did.mult == was.event.mult && was.did.shift == was.event.shift)
    {
      hide Sound, Quiet;
      var _ := SetupDtid(c, offset, mult, shift);
      Trace(script);
      var _ := RestoreDtid(c, true);
    }

    /** Saving the handler and restoring it leaves the clock event as it was. */
    method SaveAndRestore(c: nat)
      requires c < |cpus|
      modifies this`cpus
      ensures |cpus| == |old(cpus)| && cpus[c].event == old(cpus)[c].event
    {
      SetHandler(c);
      RestoreHandler(c);
    }

    /**
     * Saving it a second time saves the module's own: restoring does not bring the kernel's back, and until then an
     * interrupt ends if it is early and otherwise never, whatever number of nested calls is waited for.
     */
    method SaveTwice(c: nat, delays: seq<nat>) returns (ended: bool)
      requires c < |cpus|
      modifies this`cpus, this`runs, this`now
      ensures ended == (delays != [] && old(cpus)[c].did.start != 0 && old(now) < old(cpus)[c].event.nextEvent)
      ensures runs == old(runs) && |cpus| == |old(cpus)| && cpus[c].event.handler == Direct
    {
      SetHandler(c);
      SetHandler(c);
      ended := HandleDirect(c, delays);
      RestoreHandler(c);
    }
  }

  // Nothing in the script sets up or restores this processor.
  predicate Quiet(script: seq<Action>, c: nat) {
    forall i | 0 <= i < |script| && (script[i].Setup? || script[i].Restore?) :: script[i].cpu != c
  }

  predicate SetAlike(a: Cpu, b: Cpu) {
    a.did == b.did && a.event.(nextEvent := 0) == b.event.(nextEvent := 0)
  }

  lemma OnItsWay(c: Cpu, p: Phase)
    requires Sound(c, p) && p.Active?
    ensures c.pir || c.taken
  {
  }
}
