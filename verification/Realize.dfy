/** Realizing a device: in one go, as a transaction, or in the two halves used for hot-plug during a migration. */
module Realize {

  // What the class of a device provides, and whether its bus or machine has a hot-plug handler.
  datatype Traits = Traits(hotpluggable: bool, handler: bool, realize: bool, unrealize: bool, vmsd: bool)

  // Which of the calls into other code succeed; up and down are for the child buses.
  datatype Outcomes = Outcomes(migratable: bool, prePlug: bool, realize: bool, plug: bool, register: bool,
                               unrealize: bool, up: seq<bool>, down: seq<bool>)

  datatype Call =
    | Park(number: nat) | Unpark | PrePlug | Realize | Listen | Plug | Register | BusUp(i: nat) | Reset
    | BusDown(i: nat) | Unregister | Unrealize | ListenUnrealize

  datatype Stage = Hotplugging | Migration | PrePlugging | Realizing | Plugging | Registering | ChildBus(i: nat) | Done

  function FirstFalse(s: seq<bool>): (n: nat)
    ensures n <= |s| && (n < |s| ==> !s[n]) && forall i | 0 <= i < n :: s[i]
  {
    if s == [] || !s[0] then 0 else 1 + FirstFalse(s[1..])
  }

  // The first stage that fails: in the first half, in the second, and in the one-shot form.

  function TopFailure(t: Traits, hotplugged: bool, o: Outcomes): Stage {
    if hotplugged && !t.hotpluggable then Hotplugging
    else if !o.migratable then Migration
    else if t.handler && !o.prePlug then PrePlugging
    else if t.realize && !o.realize then Realizing
    else Done
  }

  function BottomFailure(t: Traits, o: Outcomes): Stage {
    if t.handler && !o.plug then Plugging
    else if t.vmsd && !o.register then Registering
    else if FirstFalse(o.up) < |o.up| then ChildBus(FirstFalse(o.up))
    else Done
  }

  function Failure(t: Traits, hotplugged: bool, o: Outcomes): Stage {
    if hotplugged && !t.hotpluggable then Hotplugging
    else if !o.migratable then Migration
    else if t.handler && !o.prePlug then PrePlugging
    else if t.realize && !o.realize then Realizing
    else if t.handler && !o.plug then Plugging
    else if t.vmsd && !o.register then Registering
    else if FirstFalse(o.up) < |o.up| then ChildBus(FirstFalse(o.up))
    else Done
  }

  // The calls made, in order; first the segments of the one-shot form.

  function When(b: bool, c: Call): seq<Call> {
    if b then [c] else []
  }

  function Ups(n: nat): seq<Call> {
    if n == 0 then [] else Ups(n - 1) + [BusUp(n - 1)]
  }

  function Downs(n: nat): seq<Call> {
    if n == 0 then [] else Downs(n - 1) + [BusDown(n - 1)]
  }

  predicate Refused(f: Stage) {
    f == Hotplugging || f == Migration
  }

  function TopCalls(t: Traits, parent: bool, number: nat, f: Stage): seq<Call> {
    if Refused(f) then []
    else When(!parent, Park(number)) + When(t.handler, PrePlug) + When(t.realize && f != PrePlugging, Realize)
  }

  function PlugCalls(t: Traits, f: Stage): seq<Call> {
    [Listen] + When(t.handler, Plug) + When(t.vmsd && f != Plugging, Register)
  }

  function BusCalls(f: Stage, buses: nat): seq<Call> {
    if f.ChildBus? then Ups(f.i + 1) else if f == Done then Ups(buses) else []
  }

  function BottomCalls(t: Traits, f: Stage, buses: nat): seq<Call> {
    PlugCalls(t, f) + BusCalls(f, buses)
  }

  function DownCalls(t: Traits, f: Stage, buses: nat): seq<Call> {
    if f.ChildBus? then Downs(buses) + When(t.vmsd, Unregister) else []
  }

  function UndoCalls(t: Traits, f: Stage, buses: nat): seq<Call> {
    DownCalls(t, f, buses) + When(t.unrealize, Unrealize)
  }

  function LateCalls(t: Traits, f: Stage, buses: nat): seq<Call> {
    BottomCalls(t, f, buses) + if f == Done then [] else UndoCalls(t, f, buses)
  }

  predicate Late(f: Stage) {
    f.Plugging? || f.Registering? || f.ChildBus?
  }

  // All that happens before the last step.
  function RaiseCalls(t: Traits, parent: bool, number: nat, f: Stage, buses: nat): seq<Call> {
    TopCalls(t, parent, number, f) + if f == Done || Late(f) then LateCalls(t, f, buses) else []
  }

  // The whole of the one-shot form, failing at f.
  function OneShotCalls(t: Traits, hotplugged: bool, parent: bool, number: nat, f: Stage, buses: nat): seq<Call> {
    RaiseCalls(t, parent, number, f, buses)
    + if f == Done then When(hotplugged, Reset) else When(!Refused(f) && !parent, Unpark)
  }

  function Times(c: Call, calls: seq<Call>): nat {
    if calls == [] then 0 else Times(c, calls[1..]) + if calls[0] == c then 1 else 0
  }

  lemma {:induction false} TimesAppend(c: Call, a: seq<Call>, b: seq<Call>)
    ensures Times(c, a + b) == Times(c, a) + Times(c, b)
  {
    if a == [] {
      assert a + b == b;
    } else {
      TimesAppend(c, a[1..], b);
      assert (a + b)[1..] == a[1..] + b;
    }
  }

  lemma TimesWhen(c: Call, b: bool, d: Call)
    ensures Times(c, When(b, d)) == if b && c == d then 1 else 0
  {
  }

  lemma {:induction false} TimesBuses(c: Call, n: nat)
    ensures Times(c, Ups(n)) == if c.BusUp? && c.i < n then 1 else 0
    ensures Times(c, Downs(n)) == if c.BusDown? && c.i < n then 1 else 0
  {
    if n > 0 {
      TimesBuses(c, n - 1);
      TimesAppend(c, Ups(n - 1), [BusUp(n - 1)]);
      TimesAppend(c, Downs(n - 1), [BusDown(n - 1)]);
      assert [BusUp(n - 1)][1..] == [] && [BusDown(n - 1)][1..] == [];
    }
  }

  function One(b: bool): nat {
    if b then 1 else 0
  }

  // How often each part makes call c.

  function TopTimes(c: Call, t: Traits, parent: bool, number: nat, f: Stage): nat {
    if Refused(f) then 0
    else One(!parent && c == Park(number)) + One(t.handler && c == PrePlug)
         + One(t.realize && f != PrePlugging && c == Realize)
  }

  function BottomTimes(c: Call, t: Traits, f: Stage, buses: nat): nat {
    One(c == Listen) + One(t.handler && c == Plug) + One(t.vmsd && f != Plugging && c == Register)
    + One(c.BusUp? && ((f == Done && c.i < buses) || (f.ChildBus? && c.i <= f.i)))
  }

  function UndoTimes(c: Call, t: Traits, f: Stage, buses: nat): nat {
    One(f.ChildBus? && c.BusDown? && c.i < buses) + One(f.ChildBus? && t.vmsd && c == Unregister)
    + One(t.unrealize && c == Unrealize)
  }

  function FailedTimes(c: Call, t: Traits, parent: bool, number: nat, f: Stage, buses: nat): nat {
    TopTimes(c, t, parent, number, f)
    + (if Late(f) then BottomTimes(c, t, f, buses) + UndoTimes(c, t, f, buses) else 0)
    + One(c == Unpark && !Refused(f) && !parent)
  }

  lemma TimesTop(c: Call, t: Traits, parent: bool, number: nat, f: Stage)
    ensures Times(c, TopCalls(t, parent, number, f)) == TopTimes(c, t, parent, number, f)
  {
    hide Times, When;
    TimesAppend(c, When(!parent, Park(number)) + When(t.handler, PrePlug),
                When(t.realize && f != PrePlugging, Realize));
    TimesAppend(c, When(!parent, Park(number)), When(t.handler, PrePlug));
    TimesWhen(c, !parent, Park(number));
    TimesWhen(c, t.handler, PrePlug);
    TimesWhen(c, t.realize && f != PrePlugging, Realize);
    TimesNone(c);
  }

  lemma TimesNone(c: Call)
    ensures Times(c, []) == 0
  {
  }

  lemma TimesBottom(c: Call, t: Traits, f: Stage, buses: nat)
    ensures Times(c, BottomCalls(t, f, buses)) == BottomTimes(c, t, f, buses)
  {
    hide Times, PlugCalls, BusCalls;
    TimesAppend(c, PlugCalls(t, f), BusCalls(f, buses));
    TimesPlug(c, t, f);
    TimesBusCalls(c, f, buses);
  }

  lemma TimesBusCalls(c: Call, f: Stage, buses: nat)
    ensures Times(c, BusCalls(f, buses)) == One(c.BusUp? && ((f == Done && c.i < buses) || (f.ChildBus? && c.i <= f.i)))
  {
    hide Times, Ups;
    TimesBuses(c, if f.ChildBus? then f.i + 1 else buses);
    TimesNone(c);
  }

  lemma TimesPlug(c: Call, t: Traits, f: Stage)
    ensures Times(c, PlugCalls(t, f))
         == One(c == Listen) + One(t.handler && c == Plug) + One(t.vmsd && f != Plugging && c == Register)
  {
    WhenFacts(Listen);
    hide Times, When;
    TimesAppend(c, When(true, Listen) + When(t.handler, Plug), When(t.vmsd && f != Plugging, Register));
    TimesAppend(c, When(true, Listen), When(t.handler, Plug));
    TimesWhen(c, true, Listen);
    TimesWhen(c, t.handler, Plug);
    TimesWhen(c, t.vmsd && f != Plugging, Register);
  }

  lemma TimesUndo(c: Call, t: Traits, f: Stage, buses: nat)
    ensures Times(c, UndoCalls(t, f, buses)) == UndoTimes(c, t, f, buses)
  {
    hide Times, When, Downs;
    TimesAppend(c, DownCalls(t, f, buses), When(t.unrealize, Unrealize));
    TimesAppend(c, Downs(buses), When(t.vmsd, Unregister));
    TimesWhen(c, t.vmsd, Unregister);
    TimesWhen(c, t.unrealize, Unrealize);
    TimesBuses(c, buses);
    TimesNone(c);
  }

  lemma TimesFailed(c: Call, t: Traits, hotplugged: bool, parent: bool, number: nat, f: Stage, buses: nat)
    requires f != Done
    ensures Times(c, OneShotCalls(t, hotplugged, parent, number, f, buses))
         == FailedTimes(c, t, parent, number, f, buses)
  {
    hide Times, When, TopCalls, BottomCalls, UndoCalls, TopTimes, BottomTimes, UndoTimes;
    TimesAppend(c, RaiseCalls(t, parent, number, f, buses), When(!Refused(f) && !parent, Unpark));
    TimesAppend(c, TopCalls(t, parent, number, f), if Late(f) then LateCalls(t, f, buses) else []);
    TimesAppend(c, BottomCalls(t, f, buses), UndoCalls(t, f, buses));
    TimesTop(c, t, parent, number, f);
    TimesBottom(c, t, f, buses);
    TimesUndo(c, t, f, buses);
    TimesWhen(c, !Refused(f) && !parent, Unpark);
    TimesNone(c);
  }

  /**
   * What a failed attempt did is undone: unrealize is called once exactly when the realize stage had been passed,
   * a registration that succeeded is withdrawn, every bus that came up is taken down, and the device is unparked if it
   * was parked.
   */
  lemma FailureUndone(t: Traits, hotplugged: bool, parent: bool, number: nat, o: Outcomes, bus: nat)
    requires Failure(t, hotplugged, o) != Done
    ensures var calls := OneShotCalls(t, hotplugged, parent, number, Failure(t, hotplugged, o), |o.up|);
            && Times(Unrealize, calls) == One(t.unrealize && TopFailure(t, hotplugged, o) == Done)
            && Times(Unregister, calls) == (if o.register then Times(Register, calls) else 0)
            && Times(Unpark, calls) == Times(Park(number), calls)
            && Times(Reset, calls) == 0
            && Times(BusUp(bus), calls) <= Times(BusDown(bus), calls)
  {
    hide Times, OneShotCalls;
    var f := Failure(t, hotplugged, o);
    FailureShape(t, hotplugged, o);
    FailedBalance(t, parent, number, f, o.register, |o.up|, bus);
    ParkBalance(t, parent, number, f, |o.up|);
    hide FailedTimes, Failure, TopFailure;
    TimesFailed(Unrealize, t, hotplugged, parent, number, f, |o.up|);
    TimesFailed(Unregister, t, hotplugged, parent, number, f, |o.up|);
    TimesFailed(Register, t, hotplugged, parent, number, f, |o.up|);
    TimesFailed(Unpark, t, hotplugged, parent, number, f, |o.up|);
    TimesFailed(Park(number), t, hotplugged, parent, number, f, |o.up|);
    TimesFailed(Reset, t, hotplugged, parent, number, f, |o.up|);
    TimesFailed(BusUp(bus), t, hotplugged, parent, number, f, |o.up|);
    TimesFailed(BusDown(bus), t, hotplugged, parent, number, f, |o.up|);
  }

  // The attempt gets past the checks, past pre-plug, realize, plug, the registration, and the buses below n.

  predicate Allowed(t: Traits, hotplugged: bool, o: Outcomes) {
    (hotplugged ==> t.hotpluggable) && o.migratable
  }

  predicate PrePlugged(t: Traits, hotplugged: bool, o: Outcomes) {
    Allowed(t, hotplugged, o) && (t.handler ==> o.prePlug)
  }

  predicate Realized(t: Traits, hotplugged: bool, o: Outcomes) {
    PrePlugged(t, hotplugged, o) && (t.realize ==> o.realize)
  }

  predicate Plugged(t: Traits, hotplugged: bool, o: Outcomes) {
    Realized(t, hotplugged, o) && (t.handler ==> o.plug)
  }

  predicate Registered(t: Traits, hotplugged: bool, o: Outcomes) {
    Plugged(t, hotplugged, o) && (t.vmsd ==> o.register)
  }

  predicate BusesCameUp(t: Traits, hotplugged: bool, o: Outcomes, n: nat) {
    n <= |o.up| && Registered(t, hotplugged, o) && forall i | 0 <= i < n :: o.up[i]
  }

  // How often an attempt runs a stage.
  function Expected(c: Call, t: Traits, hotplugged: bool, parent: bool, number: nat, o: Outcomes): nat {
    match c
    case Park(k) => One(Allowed(t, hotplugged, o) && !parent && k == number)
    case PrePlug => One(Allowed(t, hotplugged, o) && t.handler)
    case Realize => One(PrePlugged(t, hotplugged, o) && t.realize)
    case Listen => One(Realized(t, hotplugged, o))
    case Plug => One(Realized(t, hotplugged, o) && t.handler)
    case Register => One(Plugged(t, hotplugged, o) && t.vmsd)
    case BusUp(i) => One(i < |o.up| && BusesCameUp(t, hotplugged, o, i))
    case Reset => One(hotplugged && BusesCameUp(t, hotplugged, o, |o.up|))
    case _ => 0
  }

  predicate Undoing(c: Call) {
    c.Unpark? || c.BusDown? || c.Unregister? || c.Unrealize? || c.ListenUnrealize?
  }

  /** A stage is run exactly when all those before it succeeded, and never twice. */
  lemma StageReached(c: Call, t: Traits, hotplugged: bool, parent: bool, number: nat, o: Outcomes)
    requires !Undoing(c)
    ensures Times(c, OneShotCalls(t, hotplugged, parent, number, Failure(t, hotplugged, o), |o.up|))
         == Expected(c, t, hotplugged, parent, number, o)
  {
    hide Times, OneShotCalls, Expected, FailedTimes;
    var f := Failure(t, hotplugged, o);
    if f == Done {
      TimesSucceeded(c, t, hotplugged, parent, number, |o.up|);
      AllReached(c, t, hotplugged, parent, number, o);
    } else {
      TimesFailed(c, t, hotplugged, parent, number, f, |o.up|);
      ReachedUpTo(c, t, hotplugged, parent, number, o);
    }
  }

  /** An attempt succeeds exactly when every stage does. */
  lemma SucceedsExactly(t: Traits, hotplugged: bool, o: Outcomes)
    ensures Failure(t, hotplugged, o) == Done <==> BusesCameUp(t, hotplugged, o, |o.up|)
  {
  }

  lemma AllReached(c: Call, t: Traits, hotplugged: bool, parent: bool, number: nat, o: Outcomes)
    requires Failure(t, hotplugged, o) == Done && !Undoing(c)
    ensures Expected(c, t, hotplugged, parent, number, o)
         == match c
            case Park(k) => One(!parent && k == number)
            case PrePlug => One(t.handler)
            case Realize => One(t.realize)
            case Listen => 1
            case Plug => One(t.handler)
            case Register => One(t.vmsd)
            case BusUp(i) => One(i < |o.up|)
            case Reset => One(hotplugged)
  {
  }

  lemma ReachedUpTo(c: Call, t: Traits, hotplugged: bool, parent: bool, number: nat, o: Outcomes)
    requires Failure(t, hotplugged, o) != Done && !Undoing(c)
    ensures FailedTimes(c, t, parent, number, Failure(t, hotplugged, o), |o.up|)
         == Expected(c, t, hotplugged, parent, number, o)
  {
  }

  lemma FailureShape(t: Traits, hotplugged: bool, o: Outcomes)
    requires Failure(t, hotplugged, o) != Done
    ensures var f := Failure(t, hotplugged, o);
            && (Late(f) <==> TopFailure(t, hotplugged, o) == Done)
            && Consistent(t, f, o.register, |o.up|)
  {
  }

  predicate Consistent(t: Traits, f: Stage, register: bool, buses: nat) {
    && (f.Registering? ==> t.vmsd && !register)
    && (f.ChildBus? ==> f.i < buses && (t.vmsd ==> register))
  }

  lemma FailedBalance(t: Traits, parent: bool, number: nat, f: Stage, register: bool, n: nat, bus: nat)
    requires f != Done && Consistent(t, f, register, n)
    ensures FailedTimes(Unrealize, t, parent, number, f, n) == One(t.unrealize && Late(f))
    ensures FailedTimes(Unregister, t, parent, number, f, n)
         == if register then FailedTimes(Register, t, parent, number, f, n) else 0
    ensures FailedTimes(BusUp(bus), t, parent, number, f, n) <= FailedTimes(BusDown(bus), t, parent, number, f, n)
  {
    TopBalance(t, parent, number, f, bus);
    if Late(f) {
      LateBalance(t, f, register, n, bus);
    }
    hide TopTimes, BottomTimes, UndoTimes, Consistent, Late;
  }

  lemma ParkBalance(t: Traits, parent: bool, number: nat, f: Stage, n: nat)
    ensures FailedTimes(Unpark, t, parent, number, f, n) == FailedTimes(Park(number), t, parent, number, f, n)
    ensures FailedTimes(Reset, t, parent, number, f, n) == 0
  {
  }

  lemma TopBalance(t: Traits, parent: bool, number: nat, f: Stage, bus: nat)
    ensures TopTimes(Unrealize, t, parent, number, f) == TopTimes(Unregister, t, parent, number, f) == 0
    ensures TopTimes(Register, t, parent, number, f) == 0
    ensures TopTimes(BusUp(bus), t, parent, number, f) == 0
    ensures TopTimes(BusDown(bus), t, parent, number, f) == 0
  {
  }

  lemma LateBalance(t: Traits, f: Stage, register: bool, n: nat, bus: nat)
    requires Late(f) && Consistent(t, f, register, n)
    ensures BottomTimes(Unrealize, t, f, n) + UndoTimes(Unrealize, t, f, n) == One(t.unrealize)
    ensures BottomTimes(Unregister, t, f, n) == 0 && UndoTimes(Register, t, f, n) == 0
    ensures UndoTimes(Unregister, t, f, n) == if register then BottomTimes(Register, t, f, n) else 0
    ensures BottomTimes(BusUp(bus), t, f, n) <= UndoTimes(BusDown(bus), t, f, n)
    ensures UndoTimes(BusUp(bus), t, f, n) == 0
  {
  }

  // The calls of each half, by the stage at which it fails.

  function TopHalfCalls(t: Traits, hotplugged: bool, parent: bool, number: nat, f: Stage): seq<Call> {
    match f
    case Hotplugging => []
    case Migration => []
    case PrePlugging => When(!parent, Park(number)) + [PrePlug] + When(!parent, Unpark)
    case Realizing => When(!parent, Park(number)) + When(t.handler, PrePlug) + [Realize] + When(!parent, Unpark)
    case _ =>
      When(!parent, Park(number)) + When(t.handler, PrePlug) + When(t.realize, Realize) + When(hotplugged, Reset)
  }

  function BottomHalfCalls(t: Traits, f: Stage, buses: nat): seq<Call> {
    match f
    case Plugging => [Listen, Plug] + When(t.unrealize, Unrealize)
    case Registering => [Listen] + When(t.handler, Plug) + [Register] + When(t.unrealize, Unrealize)
    case ChildBus(i) =>
      [Listen] + When(t.handler, Plug) + When(t.vmsd, Register) + Ups(i + 1)
      + Downs(buses) + When(t.vmsd, Unregister) + When(t.unrealize, Unrealize)
    case _ => [Listen] + When(t.handler, Plug) + When(t.vmsd, Register) + Ups(buses)
  }

  // The tables again, in terms of When.

  lemma TopHalfTable(t: Traits, hotplugged: bool, parent: bool, number: nat)
    ensures TopHalfCalls(t, hotplugged, parent, number, Hotplugging)
         == TopHalfCalls(t, hotplugged, parent, number, Migration) == []
    ensures TopHalfCalls(t, hotplugged, parent, number, PrePlugging)
         == When(!parent, Park(number)) + When(true, PrePlug) + When(!parent, Unpark) + []
    ensures TopHalfCalls(t, hotplugged, parent, number, Realizing)
         == When(!parent, Park(number)) + When(t.handler, PrePlug) + When(true, Realize) + When(!parent, Unpark)
    ensures TopHalfCalls(t, hotplugged, parent, number, Done)
         == When(!parent, Park(number)) + When(t.handler, PrePlug) + When(t.realize, Realize) + When(hotplugged, Reset)
  {
  }

  lemma BottomHalfTable(t: Traits, buses: nat)
    ensures BottomHalfCalls(t, Plugging, buses) == [Listen] + When(true, Plug) + When(t.unrealize, Unrealize) + []
    ensures BottomHalfCalls(t, Registering, buses)
         == [Listen] + When(t.handler, Plug) + When(true, Register) + When(t.unrealize, Unrealize)
    ensures forall i: nat :: BottomHalfCalls(t, ChildBus(i), buses)
                     == [Listen] + When(t.handler, Plug) + When(t.vmsd, Register) + Ups(i + 1)
                        + Downs(buses) + When(t.vmsd, Unregister) + When(t.unrealize, Unrealize)
    ensures BottomHalfCalls(t, Done, buses) == [Listen] + When(t.handler, Plug) + When(t.vmsd, Register) + Ups(buses)
  {
  }

  lemma Chain(s: seq<Call>, a: seq<Call>, b: seq<Call>, c: seq<Call>, d: seq<Call>)
    ensures s + a + b + c + d == s + (a + b + c + d)
    ensures d == [] ==> s + a + b + c == s + (a + b + c + d)
  {
  }

  lemma ChainMore(s: seq<Call>, a: seq<Call>, b: seq<Call>, c: seq<Call>, d: seq<Call>, e: seq<Call>, f: seq<Call>,
                  g: seq<Call>)
    ensures s + a + b + c + d + e + f + g == s + (a + b + c + d + e + f + g)
  {
    Chain(s, a, b, c, d);
    Chain(s, a + b + c + d, e, f, g);
  }

  // Whether a half with these traits can fail there at all.
  predicate FailsAt(t: Traits, f: Stage) {
    match f
    case PrePlugging => t.handler
    case Realizing => t.realize
    case Plugging => t.handler
    case Registering => t.vmsd
    case _ => true
  }

  lemma TopHalfSegments(t: Traits, hotplugged: bool, parent: bool, number: nat, f: Stage)
    requires FailsAt(t, f) && !Late(f)
    ensures TopHalfCalls(t, hotplugged, parent, number, f)
         == TopCalls(t, parent, number, f)
            + if f == Done then When(hotplugged, Reset) else When(!Refused(f) && !parent, Unpark)
  {
    WhenFacts(PrePlug);
    WhenFacts(Realize);
    WhenFacts(Unpark);
    hide When;
  }

  lemma BottomHalfSegments(t: Traits, f: Stage, buses: nat)
    requires FailsAt(t, f) && (Late(f) || f == Done)
    ensures BottomHalfCalls(t, f, buses) == LateCalls(t, f, buses)
  {
    WhenFacts(Plug);
    WhenFacts(Register);
    LateParts(t, f, buses);
    WhenFacts(Unrealize);
    hide When, LateCalls;
  }

  /**
   * How the two forms differ, for every stage at which they may fail. A failure of the first half is the same in both.
   * Otherwise the halves make the same calls up to the roll-back, with the reset moved ahead, and do not unpark the
   * device.
   */
  lemma FormsCompared(t: Traits, hotplugged: bool, parent: bool, number: nat, f: Stage, buses: nat)
    requires FailsAt(t, f)
    ensures !Late(f) && f != Done ==>
              OneShotCalls(t, hotplugged, parent, number, f, buses) == TopHalfCalls(t, hotplugged, parent, number, f)
    ensures Late(f) || f == Done ==> exists early ::
              && TopHalfCalls(t, hotplugged, parent, number, Done) == early + When(hotplugged, Reset)
              && OneShotCalls(t, hotplugged, parent, number, f, buses)
              == early + BottomHalfCalls(t, f, buses)
              + (if f == Done then When(hotplugged, Reset) else When(!parent, Unpark))
              && Times(Reset, early + BottomHalfCalls(t, f, buses)) == 0
  {
    if Late(f) || f == Done {
      var early := TopCalls(t, parent, number, Done);
      TopHalfSegments(t, hotplugged, parent, number, Done);
      BottomHalfSegments(t, f, buses);
      SameTopCalls(t, parent, number, f);
      NoReset(t, parent, number, f, buses);
      hide Times, TopCalls, LateCalls, BottomHalfCalls, TopHalfCalls, When;
      assert TopHalfCalls(t, hotplugged, parent, number, Done) == early + When(hotplugged, Reset);
      assert OneShotCalls(t, hotplugged, parent, number, f, buses)
          == early + BottomHalfCalls(t, f, buses)
             + if f == Done then When(hotplugged, Reset) else When(!parent, Unpark);
    } else {
      TopHalfSegments(t, hotplugged, parent, number, f);
      hide TopCalls, TopHalfCalls, When;
    }
  }

  lemma NoReset(t: Traits, parent: bool, number: nat, f: Stage, buses: nat)
    ensures Times(Reset, TopCalls(t, parent, number, Done) + LateCalls(t, f, buses)) == 0
  {
    TimesTop(Reset, t, parent, number, Done);
    TimesBottom(Reset, t, f, buses);
    TimesUndo(Reset, t, f, buses);
    TimesNone(Reset);
    hide Times, TopCalls, BottomCalls, UndoCalls;
    TimesAppend(Reset, TopCalls(t, parent, number, Done), LateCalls(t, f, buses));
    TimesAppend(Reset, BottomCalls(t, f, buses), if f == Done then [] else UndoCalls(t, f, buses));
  }

  /** Without a failure the two halves make the calls of the one-shot form, with the reset moved ahead. */
  lemma HalvesMakeTheSameCalls(t: Traits, hotplugged: bool, parent: bool, number: nat, buses: nat)
    ensures exists early, late ::
              && OneShotCalls(t, hotplugged, parent, number, Done, buses) == early + late + When(hotplugged, Reset)
              && SplitCalls(t, hotplugged, parent, number, Done, Done, buses) == early + When(hotplugged, Reset) + late
              && Times(Reset, early + late) == 0
  {
    FormsCompared(t, hotplugged, parent, number, Done, buses);
    hide Times, OneShotCalls, TopHalfCalls, BottomHalfCalls, When;
  }

  function SplitCalls(t: Traits, hotplugged: bool, parent: bool, number: nat, top: Stage, bottom: Stage,
                      buses: nat): seq<Call> {
    TopHalfCalls(t, hotplugged, parent, number, top) + BottomHalfCalls(t, bottom, buses)
  }

  class Machine {
    // The static counters of device_set_realized and of the top half.
    var unattached: nat
    var unattachedTop: nat

    constructor ()
      ensures unattached == 0 && unattachedTop == 0
    {
      unattached, unattachedTop := 0, 0;
    }
  }

  class Device {
    const traits: Traits
    const hotplugged: bool
    var realized: bool
    var parent: bool
    var pendingDeleted: bool
    var vmstate: bool
    var buses: seq<bool>
    var calls: seq<Call>

    constructor (traits: Traits, hotplugged: bool, parent: bool, n: nat)
      ensures this.traits == traits && this.hotplugged == hotplugged && this.parent == parent
      ensures Fresh() && !pendingDeleted && |buses| == n && calls == []
    {
      this.traits, this.hotplugged, this.parent := traits, hotplugged, parent;
      realized, pendingDeleted, vmstate, buses, calls := false, false, false, seq(n, _ => false), [];
    }

    // A device that has never been realized, or has been put back.
    predicate Fresh()
      reads this
    {
      !realized && !vmstate && forall i | 0 <= i < |buses| :: !buses[i]
    }

    method Do(c: Call)
      modifies this`calls
      ensures calls == old(calls) + [c]
    {
      calls := calls + [c];
    }

    method DoWhen(b: bool, c: Call)
      modifies this`calls
      ensures calls == old(calls) + When(b, c)
    {
      if b {
        Do(c);
      }
    }

    // The checks and stages up to dc->realize; parked tells whether the device was put under /unattached.
    method Begin(number: nat, o: Outcomes) returns (f: Stage, parked: bool)
      requires !(hotplugged && !traits.hotpluggable)
      modifies this`parent, this`calls
      ensures f == TopFailure(traits, hotplugged, o)
      ensures calls == old(calls) + TopCalls(traits, old(parent), number, f)
      ensures parked == (!Refused(f) && !old(parent)) && parent == (old(parent) || parked)
    {
      parked := false;
      if !o.migratable {
        return Migration, parked;
      }
      if !parent {
        Do(Park(number));
        parent, parked := true, true;
      }
      if traits.handler {
        Do(PrePlug);
        if !o.prePlug {
          return PrePlugging, parked;
        }
      }
      if traits.realize {
        Do(Realize);
        if !o.realize {
          return Realizing, parked;
        }
      }
      return Done, parked;
    }

    method BusesUp(o: Outcomes) returns (f: Stage)
      requires |o.up| == |buses|
      modifies this`buses, this`calls
      ensures var n := FirstFalse(o.up);
              && f == (if n < |o.up| then ChildBus(n) else Done)
              && calls == old(calls) + (if n < |o.up| then Ups(n + 1) else Ups(n))
              && |buses| == |o.up| && forall i | 0 <= i < |o.up| :: buses[i] == (i < n || old(buses)[i])
    {
      for i := 0 to |buses|
        invariant |buses| == |o.up| && i <= FirstFalse(o.up) && calls == old(calls) + Ups(i)
        invariant forall j | 0 <= j < |o.up| :: buses[j] == (j < i || old(buses)[j])
      {
        Do(BusUp(i));
        if !o.up[i] {
          return ChildBus(i);
        }
        buses := buses[i := true];
      }
      return Done;
    }

    // A bus that cannot be taken down stays as it is; the others are taken down all the same.
    method BusesDown(o: Outcomes) returns (ok: bool)
      requires |o.down| == |buses|
      modifies this`buses, this`calls
      ensures calls == old(calls) + Downs(|o.down|)
      ensures |buses| == |o.down| && forall i | 0 <= i < |o.down| :: buses[i] == (old(buses)[i] && !o.down[i])
      ensures ok <==> forall i | 0 <= i < |o.down| :: o.down[i]
    {
      ok := true;
      for i := 0 to |buses|
        invariant |buses| == |o.down| && calls == old(calls) + Downs(i)
        invariant forall j | 0 <= j < |o.down| :: buses[j] == (old(buses)[j] && !(j < i && o.down[j]))
        invariant ok <==> forall j | 0 <= j < i :: o.down[j]
      {
        Do(BusDown(i));
        if o.down[i] {
          buses := buses[i := false];
        } else {
          ok := false;
        }
      }
    }

    // Up to the registration.
    method PlugAndRegister(o: Outcomes) returns (f: Stage)
      modifies this`vmstate, this`calls
      ensures f
           == if traits.handler && !o.plug then Plugging else if traits.vmsd && !o.register then Registering else Done
      ensures calls == old(calls) + PlugCalls(traits, f)
      ensures vmstate == (old(vmstate) || (traits.vmsd && f == Done))
    {
      Do(Listen);
      if traits.handler {
        Do(Plug);
        if !o.plug {
          return Plugging;
        }
      }
      if traits.vmsd {
        Do(Register);
        if !o.register {
          return Registering;
        }
        vmstate := true;
      }
      return Done;
    }

    // The child buses, all taken down again when one does not come up.
    method Populate(o: Outcomes) returns (f: Stage)
      requires |o.up| == |buses| && |o.down| == |buses|
      modifies this`vmstate, this`buses, this`calls
      ensures var n := FirstFalse(o.up);
              && f == (if n < |o.up| then ChildBus(n) else Done)
              && calls == old(calls) + BusCalls(f, |o.up|) + DownCalls(traits, f, |o.up|)
      ensures |buses| == |o.up| && vmstate == (old(vmstate) && !(f.ChildBus? && traits.vmsd))
      ensures f == Done ==> forall i | 0 <= i < |buses| :: buses[i]
      ensures f != Done && AllDown(o) ==> Clear(buses)
    {
      f := BusesUp(o);
      if f.ChildBus? {
        var _ := BusesDown(o);
        if traits.vmsd {
          Do(Unregister);
          vmstate := false;
        }
      }
    }

    // From the listeners to the child buses, with the roll-back of a failure.
    method Finish(o: Outcomes) returns (f: Stage)
      requires |o.up| == |buses| && |o.down| == |buses|
      modifies this`vmstate, this`buses, this`calls
      ensures f == BottomFailure(traits, o)
      ensures calls == old(calls) + LateCalls(traits, f, |buses|)
      ensures |buses| == |old(buses)|
      ensures vmstate
           == if traits.vmsd && f == Done then true else if traits.vmsd && f.ChildBus? then false else old(vmstate)
      ensures f == Done ==> forall i | 0 <= i < |buses| :: buses[i]
      ensures f != Done && AllDown(o) && Clear(old(buses)) ==> Clear(buses)
    {
      hide AllDown, Clear, When, PlugCalls, BusCalls, DownCalls, LateCalls, FirstFalse;
      f := PlugAndRegister(o);
      if f == Done {
        f := Populate(o);
        SamePlugCalls(traits, f);
      } else {
        NoBusCalls(traits, f, |buses|);
      }
      DoWhen(f != Done && traits.unrealize, Unrealize);
      LateParts(traits, f, |buses|);
    }

    // device_set_realized
    method SetRealized(m: Machine, value: bool, o: Outcomes) returns (ok: bool)
      requires |o.up| == |buses| && |o.down| == |buses|
      modifies this, m`unattached
      ensures |buses| == |old(buses)|
      ensures value && !old(realized) ==> ok == (Failure(traits, hotplugged, o) == Done) && realized == ok
      ensures value && !old(realized) ==>
                calls == old(calls) + OneShotCalls(traits, hotplugged, old(parent), old(m.unattached),
                                                   Failure(traits, hotplugged, o), |buses|)
      // Success: everything is up.
      ensures value && !old(realized) && ok ==> parent && !pendingDeleted && (forall i | 0 <= i < |buses| :: buses[i])
      ensures value && !old(realized) && ok ==> vmstate == (old(vmstate) || traits.vmsd)
      ensures value && !old(realized) && ok ==> m.unattached == old(m.unattached) + One(!old(parent))
      // Failure: nothing is left behind.
      ensures value && !old(realized) && !ok ==>
                parent == old(parent) && pendingDeleted == old(pendingDeleted) && m.unattached == old(m.unattached)
      ensures value && old(Fresh()) && !ok && AllDown(o) ==> Fresh()
      // Nothing to do, or not allowed.
      ensures value == old(realized) || (hotplugged && !traits.hotpluggable) ==>
                Same(old(State())) && m.unattached == old(m.unattached)
      ensures value == old(realized) ==> ok == !(hotplugged && !traits.hotpluggable)
      // Unrealizing goes through to the end, but a failure on the way leaves the flag set.
      ensures !value && old(realized) && !(hotplugged && !traits.hotpluggable) ==>
                && ok == (AllDown(o) && (traits.unrealize ==> o.unrealize)) && realized == !ok
                && vmstate == (old(vmstate) && !traits.vmsd) && pendingDeleted && parent == old(parent)
      ensures !value && old(realized) && !(hotplugged && !traits.hotpluggable) ==>
                && (forall i | 0 <= i < |buses| :: buses[i] == (old(buses)[i] && !o.down[i]))
                && calls == old(calls) + UnrealizeCalls(traits, |buses|)
      // Every step is taken once and they come in this order.
      ensures !value && old(realized) && !(hotplugged && !traits.hotpluggable) ==>
                |calls| >= |old(calls)| && Unrealizes(traits, calls[|old(calls)|..], |buses|)
      ensures !value ==> m.unattached == old(m.unattached)
    {
      if hotplugged && !traits.hotpluggable {
        return false;
      }
      if value && !realized {
        ok := Attempt(m, o);
        if !ok {
          return;
        }
      } else if !value && realized {
        ok := Withdraw(o);
        if !ok {
          return;
        }
      }
      realized := value;
      ok := true;
    }

    // The branch that realizes, and its roll-back.
    method Attempt(m: Machine, o: Outcomes) returns (ok: bool)
      requires |o.up| == |buses| && |o.down| == |buses| && !(hotplugged && !traits.hotpluggable)
      modifies this`parent, this`pendingDeleted, this`vmstate, this`buses, this`calls, m`unattached
      ensures |buses| == |old(buses)|
      ensures ok == (Failure(traits, hotplugged, o) == Done)
      ensures calls
           == old(calls) + OneShotCalls(traits, hotplugged, old(parent), old(m.unattached),
                                        Failure(traits, hotplugged, o), |buses|)
      ensures ok ==> parent && !pendingDeleted && (forall i | 0 <= i < |buses| :: buses[i])
      ensures ok ==> vmstate == (old(vmstate) || traits.vmsd)
      ensures ok ==> m.unattached == old(m.unattached) + One(!old(parent))
      ensures !ok ==>
                parent == old(parent) && pendingDeleted == old(pendingDeleted) && m.unattached == old(m.unattached)
      ensures !ok && !old(vmstate) ==> !vmstate
      ensures !ok && AllDown(o) && Clear(old(buses)) ==> Clear(buses)
    {
      hide AllDown, Clear, RaiseCalls, Failure, When;
      var f, parked := Raise(m, o);
      if f == Done {
        DoWhen(hotplugged, Reset);
        pendingDeleted := false;
        return true;
      }
      DoWhen(parked, Unpark);
      if parked {
        parent := false;
        m.unattached := m.unattached - 1;
      }
      ok := false;
    }

    // All stages, the later ones with their own roll-back.
    method Raise(m: Machine, o: Outcomes) returns (f: Stage, parked: bool)
      requires |o.up| == |buses| && |o.down| == |buses| && !(hotplugged && !traits.hotpluggable)
      modifies this`parent, this`vmstate, this`buses, this`calls, m`unattached
      ensures |buses| == |old(buses)| && f == Failure(traits, hotplugged, o)
      ensures calls == old(calls) + RaiseCalls(traits, old(parent), old(m.unattached), f, |buses|)
      ensures parked == (!Refused(f) && !old(parent)) && parent == (old(parent) || parked)
      ensures m.unattached == old(m.unattached) + One(parked)
      ensures f == Done ==> vmstate == (old(vmstate) || traits.vmsd) && forall i | 0 <= i < |buses| :: buses[i]
      ensures f != Done && !old(vmstate) ==> !vmstate
      ensures f != Done && AllDown(o) && Clear(old(buses)) ==> Clear(buses)
    {
      FailureIsEither(traits, hotplugged, o);
      hide AllDown, Clear, TopCalls, LateCalls, Failure, TopFailure, BottomFailure;
      f, parked := Begin(m.unattached, o);
      TopShape(traits, hotplugged, o);
      if parked {
        m.unattached := m.unattached + 1;
      }
      if f == Done {
        f := Finish(o);
        BottomShape(traits, o);
        SameTopCalls(traits, old(parent), old(m.unattached), f);
      }
    }

    method Withdraw(o: Outcomes) returns (ok: bool)
      requires |o.down| == |buses|
      modifies this`pendingDeleted, this`vmstate, this`buses, this`calls
      ensures ok == (AllDown(o) && (traits.unrealize ==> o.unrealize))
      ensures |buses| == |old(buses)| && forall i | 0 <= i < |buses| :: buses[i] == (old(buses)[i] && !o.down[i])
      ensures vmstate == (old(vmstate) && !traits.vmsd) && pendingDeleted
      ensures calls == old(calls) + UnrealizeCalls(traits, |buses|)
      ensures |calls| >= |old(calls)| && Unrealizes(traits, calls[|old(calls)|..], |buses|)
    {
      hide When, Downs, Unrealizes;
      ok := BusesDown(o);
      DoWhen(traits.vmsd, Unregister);
      if traits.vmsd {
        vmstate := false;
      }
      DoWhen(traits.unrealize, Unrealize);
      if traits.unrealize {
        ok := ok && o.unrealize;
      }
      pendingDeleted := true;
      Do(ListenUnrealize);
      AppendedUnrealize(old(calls), calls, traits, |buses|);
    }

    // osnet_device_set_realized_top_half; ok is the absence of an error, the flag is not touched.
    method TopHalf(m: Machine, o: Outcomes) returns (ok: bool)
      modifies this`parent, this`calls, m`unattachedTop
      ensures realized ==> ok == !(hotplugged && !traits.hotpluggable) && calls == old(calls)
      ensures realized ==> parent == old(parent) && m.unattachedTop == old(m.unattachedTop)
      ensures !realized ==> ok == (TopFailure(traits, hotplugged, o) == Done)
      ensures !realized ==>
                calls == old(calls) + TopHalfCalls(traits, hotplugged, old(parent), old(m.unattachedTop),
                                                   TopFailure(traits, hotplugged, o))
      ensures !realized && ok ==> parent && m.unattachedTop == old(m.unattachedTop) + One(!old(parent))
      ensures !ok ==> parent == old(parent) && m.unattachedTop == old(m.unattachedTop)
    {
      hide When, TopHalfCalls;
      TopHalfTable(traits, hotplugged, parent, m.unattachedTop);
      ok := true;
      if hotplugged && !traits.hotpluggable {
        return false;
      }
      if !realized {
        if !o.migratable {
          return false;
        }
        var parked := !parent;
        ghost var before, number := calls, m.unattachedTop;
        DoWhen(parked, Park(m.unattachedTop));
        if parked {
          m.unattachedTop := m.unattachedTop + 1;
          parent := true;
        }
        DoWhen(traits.handler, PrePlug);
        if traits.handler && !o.prePlug {
          ok := false;
          Chain(before, When(parked, Park(number)), When(true, PrePlug), When(parked, Unpark), []);
        }
        if ok {
          DoWhen(traits.realize, Realize);
          if traits.realize && !o.realize {
            ok := false;
            Chain(before, When(parked, Park(number)), When(traits.handler, PrePlug), When(true, Realize),
                  When(parked, Unpark));
          }
        }
        if ok {
          DoWhen(hotplugged, Reset);
          Chain(before, When(parked, Park(number)), When(traits.handler, PrePlug), When(traits.realize, Realize),
                When(hotplugged, Reset));
          return;
        }
        DoWhen(parked, Unpark);
        if parked {
          parent := false;
          m.unattachedTop := m.unattachedTop - 1;
        }
      }
    }

    // qmp_osnet_vfio_nic_realize_top_half: sets the flag whatever happened and keeps the error to itself.
    method QmpTopHalf(m: Machine, o: Outcomes)
      modifies this`parent, this`calls, this`realized, m`unattachedTop
      ensures realized
      ensures !old(realized) ==>
                calls == old(calls) + TopHalfCalls(traits, hotplugged, old(parent), old(m.unattachedTop),
                                                   TopFailure(traits, hotplugged, o))
      ensures old(realized) ==> calls == old(calls)
      ensures !old(realized) ==> parent == (old(parent) || TopFailure(traits, hotplugged, o) == Done)
      ensures !old(realized) ==>
                m.unattachedTop == old(m.unattachedTop) + One(!old(parent) && TopFailure(traits, hotplugged, o) == Done)
    {
      var _ := TopHalf(m, o);
      realized := true;
    }

    // osnet_device_set_realized_bottom_half
    method BottomHalf(o: Outcomes)
      requires |o.up| == |buses| && |o.down| == |buses|
      modifies this`pendingDeleted, this`vmstate, this`buses, this`calls
      ensures calls == old(calls) + BottomHalfCalls(traits, BottomFailure(traits, o), |buses|)
      ensures |buses| == |old(buses)|
      ensures BottomFailure(traits, o) == Done ==>
                !pendingDeleted && vmstate == (old(vmstate) || traits.vmsd) && forall i | 0 <= i < |buses| :: buses[i]
      ensures BottomFailure(traits, o) != Done ==> pendingDeleted == old(pendingDeleted) && (!old(vmstate) ==> !vmstate)
      ensures BottomFailure(traits, o) != Done && AllDown(o) && Clear(old(buses)) ==> Clear(buses)
    {
      hide When, Ups, Downs, AllDown, Clear, BottomHalfCalls, FirstFalse;
      BottomHalfTable(traits, |buses|);
      ghost var before := calls;
      Do(Listen);
      DoWhen(traits.handler, Plug);
      if traits.handler && !o.plug {
        UnrealizeHalf();
        Chain(before, [Listen], When(true, Plug), When(traits.unrealize, Unrealize), []);
        return;
      }
      DoWhen(traits.vmsd, Register);
      if traits.vmsd {
        if !o.register {
          UnrealizeHalf();
          Chain(before, [Listen], When(traits.handler, Plug), When(true, Register), When(traits.unrealize, Unrealize));
          return;
        }
        vmstate := true;
      }
      var up := RaiseHalf(o);
      if !up {
        ChildFailHalf(o);
        ChainMore(before, [Listen], When(traits.handler, Plug), When(traits.vmsd, Register), Ups(FirstFalse(o.up) + 1),
                  Downs(|buses|), When(traits.vmsd, Unregister), When(traits.unrealize, Unrealize));
        return;
      }
      Chain(before, [Listen], When(traits.handler, Plug), When(traits.vmsd, Register), Ups(|buses|));
      pendingDeleted := false;
    }

    // Its loop over the child buses.
    method RaiseHalf(o: Outcomes) returns (ok: bool)
      requires |o.up| == |buses|
      modifies this`buses, this`calls
      ensures ok == (FirstFalse(o.up) == |o.up|) && |buses| == |old(buses)|
      ensures calls == old(calls) + Ups(if ok then |buses| else FirstFalse(o.up) + 1)
      ensures forall j | 0 <= j < |buses| :: buses[j] == (j < FirstFalse(o.up) || old(buses)[j])
    {
      for i := 0 to |buses|
        invariant |buses| == |old(buses)| && i <= FirstFalse(o.up) && calls == old(calls) + Ups(i)
        invariant forall j | 0 <= j < |buses| :: buses[j] == (j < i || old(buses)[j])
      {
        Do(BusUp(i));
        if !o.up[i] {
          return false;
        }
        buses := buses[i := true];
      }
      return true;
    }

    // Its label post_realize_fail.
    method UnrealizeHalf()
      modifies this`calls
      ensures calls == old(calls) + When(traits.unrealize, Unrealize)
    {
      if traits.unrealize {
        Do(Unrealize);
      }
    }

    // Its label child_realize_fail, and on.
    method ChildFailHalf(o: Outcomes)
      requires |o.down| == |buses|
      modifies this`vmstate, this`buses, this`calls
      ensures calls == old(calls) + Downs(|buses|) + When(traits.vmsd, Unregister) + When(traits.unrealize, Unrealize)
      ensures |buses| == |old(buses)| && forall j | 0 <= j < |buses| :: buses[j] == (old(buses)[j] && !o.down[j])
      ensures vmstate == (old(vmstate) && !traits.vmsd)
      ensures AllDown(o) ==> Clear(buses)
    {
      for i := 0 to |buses|
        invariant |buses| == |old(buses)| && calls == old(calls) + Downs(i) && vmstate == old(vmstate)
        invariant forall j | 0 <= j < |buses| :: buses[j] == (old(buses)[j] && !(j < i && o.down[j]))
      {
        Do(BusDown(i));
        if o.down[i] {
          buses := buses[i := false];
        }
      }
      if traits.vmsd {
        Do(Unregister);
        vmstate := false;
      }
      UnrealizeHalf();
    }

    function State(): (bool, bool, bool, bool, seq<bool>, seq<Call>)
      reads this
    {
      (realized, parent, pendingDeleted, vmstate, buses, calls)
    }

    predicate Same(s: (bool, bool, bool, bool, seq<bool>, seq<Call>))
      reads this
    {
      State() == s
    }
  }

  function UnrealizeCalls(t: Traits, buses: nat): seq<Call> {
    Downs(buses) + When(t.vmsd, Unregister) + When(t.unrealize, Unrealize) + [ListenUnrealize]
  }

  /** The one-shot form fails where the first half fails, and otherwise where the second does. */
  lemma FailureIsEither(t: Traits, hotplugged: bool, o: Outcomes)
    ensures Failure(t, hotplugged, o)
         == if TopFailure(t, hotplugged, o) != Done then TopFailure(t, hotplugged, o) else BottomFailure(t, o)
    ensures FailsAt(t, TopFailure(t, hotplugged, o)) && FailsAt(t, BottomFailure(t, o))
  {
  }

  // The order of calls: n child buses.
  function Rank(c: Call, n: nat): nat {
    match c
    case Park(_) => 0
    case PrePlug => 1
    case Realize => 2
    case Listen => 3
    case Plug => 4
    case Register => 5
    case BusUp(i) => 6 + i
    case BusDown(i) => 6 + n + i
    case Unregister => 6 + 2 * n
    case Unrealize => 7 + 2 * n
    case ListenUnrealize => 8 + 2 * n
    case Unpark => 8 + 2 * n
    case Reset => 8 + 2 * n
  }

  /** The calls are in this order, none is made twice, and their ranks are from low up to high. */
  ghost predicate Ranked(calls: seq<Call>, n: nat, low: nat, high: nat) {
    && (forall i | 0 <= i < |calls| :: low <= Rank(calls[i], n) < high)
    && (forall i, j | 0 <= i < j < |calls| :: Rank(calls[i], n) < Rank(calls[j], n))
  }

  lemma RankedAppend(a: seq<Call>, b: seq<Call>, n: nat, low: nat, mid: nat, high: nat)
    requires low <= mid <= high && Ranked(a, n, low, mid) && Ranked(b, n, mid, high)
    ensures Ranked(a + b, n, low, high)
  {
    hide Rank;
  }

  lemma RankedWhen(b: bool, c: Call, n: nat, low: nat)
    requires b ==> Rank(c, n) == low
    ensures Ranked(When(b, c), n, low, low + 1)
  {
  }

  lemma {:induction false} RankedBuses(k: nat, n: nat)
    requires k <= n
    ensures Ranked(Ups(k), n, 6, 6 + k) && Ranked(Downs(k), n, 6 + n, 6 + n + k)
  {
    if k > 0 {
      RankedBuses(k - 1, n);
      assert Ranked([BusUp(k - 1)], n, 5 + k, 6 + k) && Ranked([BusDown(k - 1)], n, 5 + n + k, 6 + n + k);
      hide Ranked;
      RankedAppend(Ups(k - 1), [BusUp(k - 1)], n, 6, 5 + k, 6 + k);
      RankedAppend(Downs(k - 1), [BusDown(k - 1)], n, 6 + n, 5 + n + k, 6 + n + k);
    }
  }

  lemma RankedWiden(calls: seq<Call>, n: nat, low: nat, high: nat, low': nat, high': nat)
    requires Ranked(calls, n, low, high) && low' <= low && high <= high'
    ensures Ranked(calls, n, low', high')
  {
    hide Rank;
  }

  lemma RankedNone(n: nat, low: nat)
    ensures Ranked([], n, low, low)
  {
  }

  lemma RankedTop(t: Traits, parent: bool, number: nat, f: Stage, n: nat)
    ensures Ranked(TopCalls(t, parent, number, f), n, 0, 3)
  {
    hide When, Ranked;
    RankedNone(n, 0);
    RankedWiden([], n, 0, 0, 0, 3);
    RankedWhen(!parent, Park(number), n, 0);
    RankedWhen(t.handler, PrePlug, n, 1);
    RankedWhen(t.realize && f != PrePlugging, Realize, n, 2);
    RankedAppend(When(!parent, Park(number)), When(t.handler, PrePlug), n, 0, 1, 2);
    RankedAppend(When(!parent, Park(number)) + When(t.handler, PrePlug), When(t.realize && f != PrePlugging, Realize),
                 n, 0, 2, 3);
  }

  lemma RankedPlug(t: Traits, f: Stage, n: nat)
    ensures Ranked(PlugCalls(t, f), n, 3, 6)
  {
    WhenFacts(Listen);
    hide When, Ranked;
    RankedWhen(true, Listen, n, 3);
    RankedWhen(t.handler, Plug, n, 4);
    RankedWhen(t.vmsd && f != Plugging, Register, n, 5);
    RankedAppend(When(true, Listen), When(t.handler, Plug), n, 3, 4, 5);
    RankedAppend(When(true, Listen) + When(t.handler, Plug), When(t.vmsd && f != Plugging, Register), n, 3, 5, 6);
  }

  lemma RankedBusCalls(f: Stage, n: nat)
    requires f.ChildBus? ==> f.i < n
    ensures Ranked(BusCalls(f, n), n, 6, 6 + n)
  {
    var k := if f.ChildBus? then f.i + 1 else n;
    RankedBuses(k, n);
    RankedNone(n, 6);
    hide Ranked;
    RankedWiden(Ups(k), n, 6, 6 + k, 6, 6 + n);
    RankedWiden([], n, 6, 6, 6, 6 + n);
  }

  lemma RankedUndo(t: Traits, f: Stage, n: nat)
    ensures Ranked(UndoCalls(t, f, n), n, 6 + n, 8 + 2 * n)
  {
    hide When, Ranked, Downs;
    RankedDowns(t, n);
    RankedNone(n, 6 + n);
    RankedWiden([], n, 6 + n, 6 + n, 6 + n, 7 + 2 * n);
    RankedWhen(t.unrealize, Unrealize, n, 7 + 2 * n);
    RankedAppend(DownCalls(t, f, n), When(t.unrealize, Unrealize), n, 6 + n, 7 + 2 * n, 8 + 2 * n);
  }

  lemma RankedDowns(t: Traits, n: nat)
    ensures Ranked(Downs(n) + When(t.vmsd, Unregister), n, 6 + n, 7 + 2 * n)
  {
    hide When, Ranked, Downs;
    RankedBuses(n, n);
    RankedWhen(t.vmsd, Unregister, n, 6 + 2 * n);
    RankedAppend(Downs(n), When(t.vmsd, Unregister), n, 6 + n, 6 + 2 * n, 7 + 2 * n);
  }

  /** Whatever stage fails, or none: the calls of the one-shot form are in this order. */
  lemma OneShotInOrder(t: Traits, hotplugged: bool, parent: bool, number: nat, f: Stage, n: nat)
    requires f.ChildBus? ==> f.i < n
    ensures Ranked(OneShotCalls(t, hotplugged, parent, number, f, n), n, 0, 9 + 2 * n)
  {
    hide When, Ranked, TopCalls, LateCalls;
    RankedTop(t, parent, number, f, n);
    RankedLate(t, f, n);
    RankedNone(n, 3);
    RankedWiden([], n, 3, 3, 3, 8 + 2 * n);
    RankedAppend(TopCalls(t, parent, number, f), if f == Done || Late(f) then LateCalls(t, f, n) else [], n, 0, 3,
                 8 + 2 * n);
    RankedWhen(hotplugged, Reset, n, 8 + 2 * n);
    RankedWhen(!Refused(f) && !parent, Unpark, n, 8 + 2 * n);
    RankedAppend(RaiseCalls(t, parent, number, f, n),
                 if f == Done then When(hotplugged, Reset) else When(!Refused(f) && !parent, Unpark),
                 n, 0, 8 + 2 * n, 9 + 2 * n);
  }

  lemma RankedLate(t: Traits, f: Stage, n: nat)
    requires f.ChildBus? ==> f.i < n
    ensures Ranked(LateCalls(t, f, n), n, 3, 8 + 2 * n)
  {
    hide Ranked, PlugCalls, BusCalls, UndoCalls;
    RankedPlug(t, f, n);
    RankedBusCalls(f, n);
    RankedUndo(t, f, n);
    RankedNone(n, 6 + n);
    RankedWiden([], n, 6 + n, 6 + n, 6 + n, 8 + 2 * n);
    RankedAppend(PlugCalls(t, f), BusCalls(f, n), n, 3, 6, 6 + n);
    RankedAppend(BottomCalls(t, f, n), if f == Done then [] else UndoCalls(t, f, n), n, 3, 6 + n, 8 + 2 * n);
  }

  /** How often a successful attempt makes each call. */
  lemma TimesSucceeded(c: Call, t: Traits, hotplugged: bool, parent: bool, number: nat, n: nat)
    ensures Times(c, OneShotCalls(t, hotplugged, parent, number, Done, n))
         == match c
            case Park(k) => One(!parent && k == number)
            case PrePlug => One(t.handler)
            case Realize => One(t.realize)
            case Listen => 1
            case Plug => One(t.handler)
            case Register => One(t.vmsd)
            case BusUp(i) => One(i < n)
            case Reset => One(hotplugged)
            case _ => 0
  {
    TimesTop(c, t, parent, number, Done);
    TimesBottom(c, t, Done, n);
    hide Times, When, TopCalls, BottomCalls;
    TimesAppend(c, RaiseCalls(t, parent, number, Done, n), When(hotplugged, Reset));
    TimesAppend(c, TopCalls(t, parent, number, Done), LateCalls(t, Done, n));
    TimesAppend(c, BottomCalls(t, Done, n), []);
    TimesWhen(c, hotplugged, Reset);
    TimesNone(c);
  }

  /**
   * What unrealizing is: every bus down, the registration withdrawn, unrealize and the listeners, once each, in that
   * order.
   */
  ghost predicate Unrealizes(t: Traits, calls: seq<Call>, n: nat) {
    && (forall i: nat :: Times(BusDown(i), calls) == One(i < n))
    && Times(Unregister, calls) == One(t.vmsd)
    && Times(Unrealize, calls) == One(t.unrealize)
    && Times(ListenUnrealize, calls) == 1
    && |calls| == n + One(t.vmsd) + One(t.unrealize) + 1
    && Ranked(calls, n, 6 + n, 9 + 2 * n)
  }

  lemma AppendedUnrealize(before: seq<Call>, after: seq<Call>, t: Traits, n: nat)
    requires after == before + UnrealizeCalls(t, n)
    ensures |after| >= |before| && Unrealizes(t, after[|before|..], n)
  {
    CallsUnrealize(t, n);
    hide Unrealizes, UnrealizeCalls;
    assert after[|before|..] == UnrealizeCalls(t, n);
  }

  lemma CallsUnrealize(t: Traits, n: nat)
    ensures Unrealizes(t, UnrealizeCalls(t, n), n)
  {
    forall i: nat
      ensures Times(BusDown(i), UnrealizeCalls(t, n)) == One(i < n)
    {
      TimesUnrealizing(BusDown(i), t, n);
    }
    TimesUnrealizing(Unregister, t, n);
    TimesUnrealizing(Unrealize, t, n);
    TimesUnrealizing(ListenUnrealize, t, n);
    LengthDowns(n);
    hide Times;
    RankedUnrealizing(t, n);
    hide Ranked;
  }

  lemma {:induction false} LengthDowns(n: nat)
    ensures |Downs(n)| == n
  {
    if n > 0 {
      LengthDowns(n - 1);
    }
  }

  lemma RankedUnrealizing(t: Traits, n: nat)
    ensures Ranked(UnrealizeCalls(t, n), n, 6 + n, 9 + 2 * n)
  {
    WhenFacts(ListenUnrealize);
    hide When, Ranked, Downs;
    RankedDowns(t, n);
    RankedWhen(t.unrealize, Unrealize, n, 7 + 2 * n);
    RankedWhen(true, ListenUnrealize, n, 8 + 2 * n);
    RankedAppend(Downs(n) + When(t.vmsd, Unregister), When(t.unrealize, Unrealize), n, 6 + n, 7 + 2 * n, 8 + 2 * n);
    RankedAppend(Downs(n) + When(t.vmsd, Unregister) + When(t.unrealize, Unrealize), When(true, ListenUnrealize), n,
                 6 + n, 8 + 2 * n, 9 + 2 * n);
  }

  lemma TimesUnrealizing(c: Call, t: Traits, n: nat)
    ensures Times(c, UnrealizeCalls(t, n))
         == One(c.BusDown? && c.i < n) + One(t.vmsd && c == Unregister) + One(t.unrealize && c == Unrealize)
            + One(c == ListenUnrealize)
  {
    WhenFacts(ListenUnrealize);
    hide Times, When, Downs;
    TimesAppend(c, Downs(n) + When(t.vmsd, Unregister) + When(t.unrealize, Unrealize), When(true, ListenUnrealize));
    TimesAppend(c, Downs(n) + When(t.vmsd, Unregister), When(t.unrealize, Unrealize));
    TimesAppend(c, Downs(n), When(t.vmsd, Unregister));
    TimesWhen(c, t.vmsd, Unregister);
    TimesWhen(c, t.unrealize, Unrealize);
    TimesWhen(c, true, ListenUnrealize);
    TimesBuses(c, n);
  }

  lemma TopShape(t: Traits, hotplugged: bool, o: Outcomes)
    ensures TopFailure(t, hotplugged, o) != Done ==> !Late(TopFailure(t, hotplugged, o))
  {
  }

  lemma BottomShape(t: Traits, o: Outcomes)
    ensures BottomFailure(t, o) != Done ==> Late(BottomFailure(t, o)) && !Refused(BottomFailure(t, o))
  {
  }

  lemma SameTopCalls(t: Traits, parent: bool, number: nat, f: Stage)
    ensures f == Done || Late(f) ==> TopCalls(t, parent, number, f) == TopCalls(t, parent, number, Done)
  {
  }

  lemma NoBusCalls(t: Traits, f: Stage, buses: nat)
    requires !f.ChildBus? && f != Done
    ensures BusCalls(f, buses) == [] && DownCalls(t, f, buses) == []
  {
  }

  lemma SamePlugCalls(t: Traits, f: Stage)
    requires f != Plugging
    ensures PlugCalls(t, f) == PlugCalls(t, Done)
  {
  }

  lemma LateParts(t: Traits, f: Stage, buses: nat)
    ensures LateCalls(t, f, buses)
         == PlugCalls(t, f) + BusCalls(f, buses) + DownCalls(t, f, buses) + When(f != Done && t.unrealize, Unrealize)
  {
    hide PlugCalls, BusCalls;
  }

  lemma WhenFacts(c: Call)
    ensures When(true, c) == [c] && When(false, c) == []
  {
  }

  predicate Clear(buses: seq<bool>) {
    forall i | 0 <= i < |buses| :: !buses[i]
  }

  predicate AllDown(o: Outcomes) {
    forall i | 0 <= i < |o.down| :: o.down[i]
  }

  /**
   * Between the halves nothing remembers that the first one failed. The second half then rolls back what was never
   * done: unrealize is called without a realize stage that passed exactly when both halves fail.
   */
  lemma SplitRollback(t: Traits, hotplugged: bool, parent: bool, number: nat, o: Outcomes)
    ensures var top, bottom := TopFailure(t, hotplugged, o), BottomFailure(t, o);
            var calls := SplitCalls(t, hotplugged, parent, number, top, bottom, |o.up|);
            && Times(Unrealize, calls) == One(t.unrealize && bottom != Done)
            && (Times(Unrealize, calls) > One(top == Done) <==> t.unrealize && bottom != Done && top != Done)
  {
    var top, bottom := TopFailure(t, hotplugged, o), BottomFailure(t, o);
    FailureIsEither(t, hotplugged, o);
    TopShape(t, hotplugged, o);
    BottomShape(t, o);
    TimesSplit(Unrealize, t, hotplugged, parent, number, top, bottom, |o.up|);
    hide Times, SplitCalls, TopFailure, BottomFailure, FailsAt;
  }

  /** A device parked by the first half stays parked whatever becomes of the second. */
  lemma SplitParking(t: Traits, hotplugged: bool, parent: bool, number: nat, o: Outcomes)
    ensures var top := TopFailure(t, hotplugged, o);
            var calls := SplitCalls(t, hotplugged, parent, number, top, BottomFailure(t, o), |o.up|);
            Times(Park(number), calls) == Times(Unpark, calls) + One(!parent && top == Done)
  {
    var top, bottom := TopFailure(t, hotplugged, o), BottomFailure(t, o);
    FailureIsEither(t, hotplugged, o);
    TopShape(t, hotplugged, o);
    BottomShape(t, o);
    TimesSplit(Park(number), t, hotplugged, parent, number, top, bottom, |o.up|);
    TimesSplit(Unpark, t, hotplugged, parent, number, top, bottom, |o.up|);
    hide Times, SplitCalls, TopFailure, BottomFailure, FailsAt;
  }

  lemma TimesSplit(c: Call, t: Traits, hotplugged: bool, parent: bool, number: nat, top: Stage, bottom: Stage,
                   buses: nat)
    requires FailsAt(t, top) && !Late(top) && FailsAt(t, bottom) && (Late(bottom) || bottom == Done)
    ensures Times(c, SplitCalls(t, hotplugged, parent, number, top, bottom, buses))
         == TopTimes(c, t, parent, number, top) + BottomTimes(c, t, bottom, buses)
            + (if top == Done then One(hotplugged && c == Reset) else One(!Refused(top) && !parent && c == Unpark))
            + (if bottom == Done then 0 else UndoTimes(c, t, bottom, buses))
  {
    hide Times, TopHalfCalls, BottomHalfCalls, TopTimes, BottomTimes, UndoTimes, FailsAt, Late;
    TimesAppend(c, TopHalfCalls(t, hotplugged, parent, number, top), BottomHalfCalls(t, bottom, buses));
    TimesTopHalf(c, t, hotplugged, parent, number, top);
    TimesBottomHalf(c, t, bottom, buses);
  }

  lemma TimesTopHalf(c: Call, t: Traits, hotplugged: bool, parent: bool, number: nat, f: Stage)
    requires FailsAt(t, f) && !Late(f)
    ensures Times(c, TopHalfCalls(t, hotplugged, parent, number, f))
         == TopTimes(c, t, parent, number, f)
            + if f == Done then One(hotplugged && c == Reset) else One(!Refused(f) && !parent && c == Unpark)
  {
    TopHalfSegments(t, hotplugged, parent, number, f);
    hide Times, When, TopCalls, TopHalfCalls, TopTimes;
    TimesAppend(c, TopCalls(t, parent, number, f),
                if f == Done then When(hotplugged, Reset) else When(!Refused(f) && !parent, Unpark));
    TimesTop(c, t, parent, number, f);
    TimesWhen(c, hotplugged, Reset);
    TimesWhen(c, !Refused(f) && !parent, Unpark);
  }

  lemma TimesBottomHalf(c: Call, t: Traits, f: Stage, buses: nat)
    requires FailsAt(t, f) && (Late(f) || f == Done)
    ensures Times(c, BottomHalfCalls(t, f, buses))
         == BottomTimes(c, t, f, buses) + if f == Done then 0 else UndoTimes(c, t, f, buses)
  {
    BottomHalfSegments(t, f, buses);
    hide Times, BottomCalls, UndoCalls, BottomHalfCalls, BottomTimes, UndoTimes;
    TimesAppend(c, BottomCalls(t, f, buses), if f == Done then [] else UndoCalls(t, f, buses));
    TimesBottom(c, t, f, buses);
    TimesUndo(c, t, f, buses);
    TimesNone(c);
  }

  /**
   * Two equal devices, one realized in one go and one in halves, under the same circumstances.
   * Without a failure they end alike; their flags agree exactly when there was none, since the halves always set it.
   */
  method BothForms(a: Device, b: Device, m: Machine, o: Outcomes)
    requires a != b && a.traits == b.traits && a.hotplugged == b.hotplugged
    requires a.State() == b.State() && a.Fresh() && a.calls == []
    requires |o.up| == |a.buses| && |o.down| == |a.buses| && m.unattached == m.unattachedTop
    modifies a, b, m
    ensures b.realized && (a.realized <==> Failure(a.traits, a.hotplugged, o) == Done)
    ensures a.calls
         == OneShotCalls(a.traits, a.hotplugged, old(a.parent), old(m.unattached), Failure(a.traits, a.hotplugged, o),
                         |o.up|)
    ensures b.calls == SplitCalls(a.traits, a.hotplugged, old(a.parent), old(m.unattached),
                                  TopFailure(a.traits, a.hotplugged, o), BottomFailure(a.traits, o), |o.up|)
    ensures a.realized ==>
              && a.parent == b.parent && a.pendingDeleted == b.pendingDeleted
              && a.vmstate == b.vmstate && a.buses == b.buses
              && m.unattached == m.unattachedTop
  {
    hide OneShotCalls, TopHalfCalls, BottomHalfCalls, AllDown;
    FailureIsEither(a.traits, a.hotplugged, o);
    hide Failure, TopFailure, BottomFailure;
    var _ := a.SetRealized(m, true, o);
    b.QmpTopHalf(m, o);
    b.BottomHalf(o);
  }

  /**
   * Of two equal devices that must not be migrated, the one realized in halves ends with its flag set, never having
   * been realized.
   */
  method RefusedIsFlagged(a: Device, b: Device, m: Machine, o: Outcomes)
    requires a != b && a.traits == b.traits && a.hotplugged == b.hotplugged
    requires a.State() == b.State() && a.Fresh() && a.calls == []
    requires |o.up| == |a.buses| && |o.down| == |a.buses| && m.unattached == m.unattachedTop
    requires !o.migratable && (a.hotplugged ==> a.traits.hotpluggable)
    modifies a, b, m
    ensures !a.realized && a.calls == []
    ensures b.realized && Times(Realize, b.calls) == 0
  {
    FailureIsEither(a.traits, a.hotplugged, o);
    BottomShape(a.traits, o);
    TimesSplit(Realize, a.traits, a.hotplugged, a.parent, m.unattached, Migration, BottomFailure(a.traits, o), |o.up|);
    assert OneShotCalls(a.traits, a.hotplugged, a.parent, m.unattached, Migration, |o.up|) == [];
    hide Times, SplitCalls, OneShotCalls, BottomFailure, FailsAt;
    BothForms(a, b, m, o);
  }

  /** For any device there is: two new ones, under any circumstances. */
  method NewDevicesCompared(traits: Traits, hotplugged: bool, parent: bool, o: Outcomes) returns (a: Device, b: Device)
    requires |o.up| == |o.down|
    ensures b.realized && (a.realized <==> Failure(traits, hotplugged, o) == Done)
    ensures a.realized ==> a.parent == b.parent && a.vmstate == b.vmstate && a.buses == b.buses
  {
    var m := new Machine();
    a := new Device(traits, hotplugged, parent, |o.up|);
    b := new Device(traits, hotplugged, parent, |o.up|);
    assert a.buses == b.buses;
    BothForms(a, b, m, o);
  }
}
