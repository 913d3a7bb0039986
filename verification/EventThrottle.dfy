/** Rate limiting of monitor events: at most one event of a kind per period, the latest one winning. */
module EventThrottle {
  import opened Options

  datatype Kind =
    | RtcChange | Watchdog | BalloonChange | QuorumReportBad | QuorumFailure | VserportChange
    | Other(name: string)
  {
    // Nanoseconds between two events of the kind; 0 is no limit.
    function Rate(): nat {
      if Other? then 0 else 1_000_000_000
    }
  }

  datatype Event = Event(kind: Kind, id: string, nodeName: string, payload: string)

  // qapi_event_throttle_equal
  predicate ThrottleEqual(a: Event, b: Event) {
    if a.kind != b.kind then false
    else if a.kind == VserportChange then a.id == b.id
    else if a.kind == QuorumReportBad then a.nodeName == b.nodeName
    else true
  }

  function StrHash(s: string, h: nat): nat {
    if s == [] then h else StrHash(s[1..], (h * 33 + s[0] as nat) % 0x1_0000_0000)
  }

  // qapi_event_throttle_hash, for any numbering of the kinds.
  function ThrottleHash(number: Kind -> nat, e: Event): nat {
    (number(e.kind) * 255
     + (if e.kind == VserportChange then StrHash(e.id, 5381) else 0)
     + (if e.kind == QuorumReportBad then StrHash(e.nodeName, 5381) else 0)) % 0x1_0000_0000
  }

  datatype Key = Key(kind: Kind, name: string)

  function KeyOf(e: Event): Key {
    Key(e.kind, if e.kind == VserportChange then e.id else if e.kind == QuorumReportBad then e.nodeName else "")
  }

  /** Comparing two events is comparing their keys, and the hash respects it: a hash table holds a map from keys. */
  lemma TableIsKeyed(number: Kind -> nat, a: Event, b: Event)
    ensures ThrottleEqual(a, b) <==> KeyOf(a) == KeyOf(b)
    ensures ThrottleEqual(a, b) ==> ThrottleHash(number, a) == ThrottleHash(number, b)
  {
  }

  lemma KeyKind(e: Event)
    ensures KeyOf(e).kind == e.kind
  {
  }

  // An event is known by its position among those queued.
  datatype Emission = Emission(time: nat, event: nat)

  datatype Fate = Emitted(at: nat) | Stored | Replaced(later: nat)

  predicate SameKey(queued: seq<Event>, q: nat, r: nat) {
    q < |queued| && r < |queued| && KeyOf(queued[q]) == KeyOf(queued[r])
  }

  /** The fate of an event is to be emitted exactly if it occurs among the emissions, which it does once. */
  ghost predicate Traced(queued: seq<Event>, emitted: seq<Emission>, fate: seq<Fate>) {
    && |fate| == |queued|
    && (forall i | 0 <= i < |emitted| :: emitted[i].event < |queued| && fate[emitted[i].event] == Emitted(i))
    && (forall q | 0 <= q < |fate| :: fate[q].Emitted? ==> fate[q].at < |emitted| && emitted[fate[q].at].event == q)
  }

  /** What the table stores is exactly what waits, each event under its own key and the latest of it. */
  ghost predicate Held(queued: seq<Event>, fate: seq<Fate>, table: map<Key, Option<nat>>) {
    && |fate| == |queued|
    && (forall k | k in table && table[k].Some? ::
          table[k].value < |queued| && KeyOf(queued[table[k].value]) == k && fate[table[k].value] == Stored)
    && (forall q | 0 <= q < |fate| && fate[q] == Stored ::
          && KeyOf(queued[q]) in table && table[KeyOf(queued[q])] == Some(q)
          && forall r: nat | SameKey(queued, q, r) :: r <= q)
  }

  /** An event is only ever replaced by a later one of the same key. */
  ghost predicate Superseded(queued: seq<Event>, fate: seq<Fate>) {
    && |fate| == |queued|
    && (forall q | 0 <= q < |fate| :: fate[q].Replaced? ==> q < fate[q].later && SameKey(queued, q, fate[q].later))
  }

  /** Emissions of one key are in the order of queueing and at least its period apart. */
  ghost predicate Spaced(queued: seq<Event>, emitted: seq<Emission>) {
    && (forall i | 0 <= i < |emitted| :: emitted[i].event < |queued|)
    && (forall i, j | 0 <= i < j < |emitted| && SameKey(queued, emitted[i].event, emitted[j].event) ::
          && emitted[i].event < emitted[j].event
          && emitted[i].time + queued[emitted[i].event].kind.Rate() <= emitted[j].time)
  }

  // The period after an emission is over, unless a timer that runs at least that long is pending.
  ghost predicate Timed(queued: seq<Event>, emitted: seq<Emission>, timers: map<Key, nat>, now: nat) {
    && (forall i | 0 <= i < |emitted| :: emitted[i].event < |queued|)
    && (forall i | 0 <= i < |emitted| ::
          var e := queued[emitted[i].event];
          emitted[i].time + e.kind.Rate() <= if KeyOf(e) in timers then timers[KeyOf(e)] else now)
  }

  ghost predicate Throttled(table: map<Key, Option<nat>>) {
    forall k | k in table :: k.kind.Rate() > 0
  }

  /** Once nothing is stored, the last emission of every key is the last event queued under it. */
  lemma LastOneWins(queued: seq<Event>, emitted: seq<Emission>, fate: seq<Fate>, table: map<Key, Option<nat>>, q: nat)
    requires Traced(queued, emitted, fate) && Held(queued, fate, table)
    requires Superseded(queued, fate) && Spaced(queued, emitted)
    requires q < |queued| && (forall r | q < r < |queued| :: !SameKey(queued, q, r))
    requires KeyOf(queued[q]) in table ==> table[KeyOf(queued[q])] == None
    ensures fate[q].Emitted? && emitted[fate[q].at].event == q
    ensures forall j | fate[q].at < j < |emitted| :: !SameKey(queued, q, emitted[j].event)
  {
  }

  lemma SameKeyBefore(queued: seq<Event>, e: Event)
    ensures forall q: nat, r: nat | q < |queued| && r < |queued| && SameKey(queued + [e], q, r) :: SameKey(queued, q, r)
  {
    hide KeyOf;
  }

  // A new event is emitted at once: no other of its key waits or is within its period.

  lemma EmitNowTraced(queued: seq<Event>, emitted: seq<Emission>, fate: seq<Fate>, now: nat, e: Event)
    requires Traced(queued, emitted, fate)
    ensures Traced(queued + [e], emitted + [Emission(now, |queued|)], fate + [Emitted(|emitted|)])
  {
  }

  lemma NewSuperseded(queued: seq<Event>, fate: seq<Fate>, e: Event, f: Fate)
    requires Superseded(queued, fate) && !f.Replaced?
    ensures Superseded(queued + [e], fate + [f])
  {
    hide KeyOf;
  }

  lemma EmitNowHeld(queued: seq<Event>, fate: seq<Fate>, table: map<Key, Option<nat>>, e: Event, at: nat)
    requires Held(queued, fate, table) && KeyOf(e) !in table
    ensures Held(queued + [e], fate + [Emitted(at)], table)
    ensures Held(queued + [e], fate + [Emitted(at)], table[KeyOf(e) := None])
  {
    hide KeyOf;
    SameKeyBefore(queued, e);
    assert forall q | 0 <= q < |queued| && fate[q] == Stored :: KeyOf(queued[q]) in table;
  }

  lemma EmitNowSpaced(queued: seq<Event>, emitted: seq<Emission>, timers: map<Key, nat>, now: nat, e: Event)
    requires Spaced(queued, emitted) && Timed(queued, emitted, timers, now) && KeyOf(e) !in timers
    ensures Spaced(queued + [e], emitted + [Emission(now, |queued|)])
  {
    var sent, all := emitted + [Emission(now, |queued|)], queued + [e];
    forall i, j | 0 <= i < j < |sent| && SameKey(all, sent[i].event, sent[j].event)
      ensures sent[i].event < sent[j].event && sent[i].time + all[sent[i].event].kind.Rate() <= sent[j].time
    {
      if j < |emitted| {
        assert SameKey(queued, emitted[i].event, emitted[j].event);
      }
      hide KeyOf;
    }
  }

  lemma EmitNowTimed(queued: seq<Event>, emitted: seq<Emission>, timers: map<Key, nat>, now: nat, e: Event)
    requires Timed(queued, emitted, timers, now) && KeyOf(e) !in timers
    ensures e.kind.Rate() == 0 ==> Timed(queued + [e], emitted + [Emission(now, |queued|)], timers, now)
    ensures Timed(queued + [e], emitted + [Emission(now, |queued|)], timers[KeyOf(e) := now + e.kind.Rate()], now)
  {
    hide KeyOf;
  }

  // A new event of a key in the table waits in place of the one stored before.

  function Replace(fate: seq<Fate>, waiting: Option<nat>, q: nat): seq<Fate>
    requires waiting.Some? ==> waiting.value < |fate|
  {
    (if waiting.Some? then fate[waiting.value := Replaced(q)] else fate) + [Stored]
  }

  lemma StoreTraced(queued: seq<Event>, emitted: seq<Emission>, fate: seq<Fate>, waiting: Option<nat>, e: Event)
    requires Traced(queued, emitted, fate)
    requires waiting.Some? ==> waiting.value < |fate| && fate[waiting.value] == Stored
    ensures Traced(queued + [e], emitted, Replace(fate, waiting, |queued|))
  {
  }

  lemma StoreSuperseded(queued: seq<Event>, fate: seq<Fate>, waiting: Option<nat>, e: Event)
    requires Superseded(queued, fate)
    requires waiting.Some? ==> waiting.value < |fate| && KeyOf(queued[waiting.value]) == KeyOf(e)
    ensures Superseded(queued + [e], Replace(fate, waiting, |queued|))
  {
    hide KeyOf;
  }

  lemma StoreHeld(queued: seq<Event>, fate: seq<Fate>, table: map<Key, Option<nat>>, e: Event)
    requires Held(queued, fate, table) && KeyOf(e) in table
    ensures Held(queued + [e], Replace(fate, table[KeyOf(e)], |queued|), table[KeyOf(e) := Some(|queued|)])
  {
    hide KeyOf;
    SameKeyBefore(queued, e);
    assert forall q | 0 <= q < |queued| && fate[q] == Stored :: table[KeyOf(queued[q])] == Some(q);
  }

  lemma StoreSpaced(queued: seq<Event>, emitted: seq<Emission>, timers: map<Key, nat>, now: nat, e: Event)
    requires Spaced(queued, emitted) && Timed(queued, emitted, timers, now)
    ensures Spaced(queued + [e], emitted) && Timed(queued + [e], emitted, timers, now)
  {
    var all := queued + [e];
    forall i, j | 0 <= i < j < |emitted| && SameKey(all, emitted[i].event, emitted[j].event)
      ensures emitted[i].event < emitted[j].event
      ensures emitted[i].time + all[emitted[i].event].kind.Rate() <= emitted[j].time
    {
      assert SameKey(queued, emitted[i].event, emitted[j].event);
      hide KeyOf;
    }
  }

  // The timer of key k has fired and the event stored under it is emitted.

  lemma EmitStoredTraced(queued: seq<Event>, emitted: seq<Emission>, fate: seq<Fate>, now: nat, q: nat)
    requires Traced(queued, emitted, fate) && q < |queued| && fate[q] == Stored
    ensures Traced(queued, emitted + [Emission(now, q)], fate[q := Emitted(|emitted|)])
  {
  }

  lemma EmitStoredHeld(queued: seq<Event>, fate: seq<Fate>, table: map<Key, Option<nat>>, k: Key, at: nat)
    requires Held(queued, fate, table) && k in table && table[k].Some?
    ensures Held(queued, fate[table[k].value := Emitted(at)], table[k := None])
  {
    hide KeyOf;
  }

  lemma EmitStoredSpaced(queued: seq<Event>, emitted: seq<Emission>, fate: seq<Fate>, table: map<Key, Option<nat>>,
                         timers: map<Key, nat>, now: nat, k: Key)
    requires Traced(queued, emitted, fate) && Held(queued, fate, table)
    requires Spaced(queued, emitted) && Timed(queued, emitted, timers, now)
    requires k in table && table[k].Some? && k in timers && timers[k] <= now
    ensures Spaced(queued, emitted + [Emission(now, table[k].value)])
  {
    var q := table[k].value;
    assert fate[q] == Stored;
    forall i | 0 <= i < |emitted| && SameKey(queued, emitted[i].event, q)
      ensures emitted[i].event < q && emitted[i].time + queued[emitted[i].event].kind.Rate() <= now
    {
      assert SameKey(queued, q, emitted[i].event);
      hide KeyOf;
    }
    hide KeyOf;
  }

  lemma EmitStoredTimed(queued: seq<Event>, emitted: seq<Emission>, timers: map<Key, nat>, now: nat, q: nat)
    requires Timed(queued, emitted, timers, now) && q < |queued|
    requires KeyOf(queued[q]) in timers && timers[KeyOf(queued[q])] <= now
    ensures Timed(queued, emitted + [Emission(now, q)], timers[KeyOf(queued[q]) := now + queued[q].kind.Rate()], now)
  {
    hide KeyOf;
  }

  // The timer of key k has fired with nothing stored.

  lemma ForgetHeld(queued: seq<Event>, fate: seq<Fate>, table: map<Key, Option<nat>>, k: Key)
    requires Held(queued, fate, table) && k in table && table[k].None?
    ensures Held(queued, fate, table - {k})
  {
    hide KeyOf;
  }

  lemma ForgetTimed(queued: seq<Event>, emitted: seq<Emission>, timers: map<Key, nat>, now: nat, k: Key)
    requires Timed(queued, emitted, timers, now) && k in timers && timers[k] <= now
    ensures Timed(queued, emitted, timers - {k}, now)
  {
    hide KeyOf;
  }

  lemma LaterTimed(queued: seq<Event>, emitted: seq<Emission>, timers: map<Key, nat>, now: nat, later: nat)
    requires Timed(queued, emitted, timers, now) && now <= later
    ensures Timed(queued, emitted, timers, later)
  {
    hide KeyOf;
  }

  lemma Waiting(queued: seq<Event>, fate: seq<Fate>, table: map<Key, Option<nat>>, k: Key)
    requires Held(queued, fate, table) && k in table && table[k].Some?
    ensures |fate| == |queued|
    ensures table[k].value < |queued| && KeyOf(queued[table[k].value]) == k && fate[table[k].value] == Stored
  {
  }

  lemma FateOfEach(queued: seq<Event>, emitted: seq<Emission>, fate: seq<Fate>)
    requires Traced(queued, emitted, fate)
    ensures |fate| == |queued|
    ensures forall q | 0 <= q < |fate| :: fate[q].Emitted? ==> fate[q].at < |emitted|
    ensures forall i | 0 <= i < |emitted| :: emitted[i].event < |queued|
  {
  }

  // The keys that have an event stored.
  ghost function Stores(table: map<Key, Option<nat>>): set<Key> {
    set k | k in table && table[k].Some?
  }

  datatype Action = Post(event: Event) | Wait(time: nat) | Expire(key: Key)

  function Posted(script: seq<Action>): seq<Event> {
    if script == [] then [] else
      var n := |script| - 1;
      Posted(script[..n]) + if script[n].Post? then [script[n].event] else []
  }

  class Monitor {
    // qdict of each MonitorQAPIEventState, and the deadline of each pending timer.
    var table: map<Key, Option<nat>>
    var timers: map<Key, nat>
    var now: nat
    var emitted: seq<Emission>
    var queued: seq<Event>
    ghost var fate: seq<Fate>

    ghost predicate Valid()
      reads this
    {
      && table.Keys == timers.Keys
      && Throttled(table)
      && Traced(queued, emitted, fate)
      && Held(queued, fate, table)
      && Superseded(queued, fate)
      && Spaced(queued, emitted)
      && Timed(queued, emitted, timers, now)
    }

    constructor ()
      ensures Valid() && queued == [] && emitted == [] && table == map[] && now == 0
    {
      table, timers, now, emitted, queued, fate := map[], map[], 0, [], [], [];
    }

    method EmitNew(e: Event)
      requires Valid() && KeyOf(e) !in table
      modifies this`queued, this`emitted, this`fate
      ensures queued == old(queued) + [e] && emitted == old(emitted) + [Emission(now, |old(queued)|)]
      ensures Traced(queued, emitted, fate) && Superseded(queued, fate) && Spaced(queued, emitted)
      ensures Held(queued, fate, table) && Held(queued, fate, table[KeyOf(e) := None])
      ensures e.kind.Rate() == 0 ==> Timed(queued, emitted, timers, now)
      ensures Timed(queued, emitted, timers[KeyOf(e) := now + e.kind.Rate()], now)
    {
      hide KeyOf, Traced, Held, Superseded, Spaced, Timed;
      EmitNowTraced(queued, emitted, fate, now, e);
      NewSuperseded(queued, fate, e, Emitted(|emitted|));
      EmitNowHeld(queued, fate, table, e, |emitted|);
      EmitNowSpaced(queued, emitted, timers, now, e);
      EmitNowTimed(queued, emitted, timers, now, e);
      fate := fate + [Emitted(|emitted|)];
      queued, emitted := queued + [e], emitted + [Emission(now, |queued|)];
    }

    // monitor_qapi_event_queue
    method Queue(e: Event)
      requires Valid()
      modifies this
      ensures Valid() && now == old(now) && queued == old(queued) + [e]
      ensures e.kind.Rate() > 0 && KeyOf(e) in old(table) ==>
                && emitted == old(emitted) && timers == old(timers)
                && table == old(table)[KeyOf(e) := Some(|old(queued)|)]
      ensures e.kind.Rate() == 0 || KeyOf(e) !in old(table) ==> emitted == old(emitted) + [Emission(now, |old(queued)|)]
      ensures e.kind.Rate() == 0 ==> table == old(table) && timers == old(timers)
      ensures e.kind.Rate() > 0 && KeyOf(e) !in old(table) ==>
                table == old(table)[KeyOf(e) := None] && timers == old(timers)[KeyOf(e) := now + e.kind.Rate()]
    {
      hide KeyOf, Traced, Held, Superseded, Spaced, Timed;
      var q, k := |queued|, KeyOf(e);
      KeyKind(e);
      if e.kind.Rate() == 0 {
        assert k !in table;
        EmitNew(e);
      } else if k in table {
        assert k in timers;
        StoreHeld(queued, fate, table, e);
        StoreSpaced(queued, emitted, timers, now, e);
        if table[k].Some? {
          Waiting(queued, fate, table, k);
        }
        StoreTraced(queued, emitted, fate, table[k], e);
        StoreSuperseded(queued, fate, table[k], e);
        fate := Replace(fate, table[k], q);
        queued, table := queued + [e], table[k := Some(q)];
      } else {
        EmitNew(e);
        table, timers := table[k := None], timers[k := now + e.kind.Rate()];
      }
    }

    method Advance(time: nat)
      requires Valid()
      modifies this`now
      ensures Valid() && now == old(now) + time
    {
      LaterTimed(queued, emitted, timers, now, now + time);
      now := now + time;
    }

    // The timer of key k expires, at its deadline or later, and monitor_qapi_event_handler runs.
    method Expired(k: Key)
      requires Valid() && k in timers && timers[k] <= now
      modifies this`table, this`timers, this`emitted, this`fate
      ensures Valid()
      ensures old(table)[k].Some? ==>
                && emitted == old(emitted) + [Emission(now, old(table)[k].value)]
                && table == old(table)[k := None] && timers == old(timers)[k := now + k.kind.Rate()]
      ensures old(table)[k].None? ==>
                emitted == old(emitted) && table == old(table) - {k} && timers == old(timers) - {k}
    {
      hide KeyOf, Traced, Held, Superseded, Spaced, Timed;
      assert k in table;
      if table[k].Some? {
        var q := table[k].value;
        Waiting(queued, fate, table, k);
        KeyKind(queued[q]);
        EmitStoredTraced(queued, emitted, fate, now, q);
        EmitStoredHeld(queued, fate, table, k, |emitted|);
        EmitStoredSpaced(queued, emitted, fate, table, timers, now, k);
        EmitStoredTimed(queued, emitted, timers, now, q);
        EmitStoredSuperseded(queued, fate, q, |emitted|);
        fate := fate[q := Emitted(|emitted|)];
        emitted := emitted + [Emission(now, q)];
        table, timers := table[k := None], timers[k := now + k.kind.Rate()];
      } else {
        ForgetHeld(queued, fate, table, k);
        ForgetTimed(queued, emitted, timers, now, k);
        table, timers := table - {k}, timers - {k};
      }
    }

    /** Any interleaving of events, waiting and timers, each timer firing no earlier than its deadline. */
    method Run(script: seq<Action>)
      requires Valid()
      modifies this
      ensures Valid() && queued == old(queued) + Posted(script)
    {
      hide Traced, Held, Superseded, Spaced, Timed;
      for i := 0 to |script|
        invariant Valid() && queued == old(queued) + Posted(script[..i])
      {
        assert script[..i + 1][..i] == script[..i];
        match script[i]
        case Post(e) => Queue(e);
        case Wait(time) => Advance(time);
        case Expire(k) =>
          if k in timers && timers[k] <= now {
            Expired(k);
          }
      }
      assert script[..|script|] == script;
    }

    /**
     * When no more events come, every pending timer fires once, and once more if an event was stored with it.
     * Then the latest events are out.
     */
    method Drain() returns (fired: multiset<Key>)
      requires Valid()
      modifies this
      ensures Valid() && table == map[] && timers == map[] && queued == old(queued)
      ensures fired == Due(old(table))
      ensures |emitted| == |old(emitted)| + |Stores(old(table))|
      ensures forall q | 0 <= q < |queued| && (forall r | q < r < |queued| :: !SameKey(queued, q, r)) :: LastEmitted(q)
    {
      hide Traced, Held, Superseded, Spaced, Timed, KeyOf, Due, Stores;
      fired := multiset{};
      NothingDue();
      while timers != map[]
        invariant Valid() && queued == old(queued)
        invariant |emitted| + |Stores(table)| == |old(emitted)| + |Stores(old(table))|
        invariant fired + Due(table) == Due(old(table))
        decreases |table| + |Stores(table)|
      {
        var k := FireNext();
        fired := fired + multiset{k};
      }
      assert table.Keys == {};
      assert table == map[];
      forall q | 0 <= q < |queued| && (forall r | q < r < |queued| :: !SameKey(queued, q, r))
        ensures LastEmitted(q)
      {
        FateOfEach(queued, emitted, fate);
        LastOneWins(queued, emitted, fate, table, q);
        var at := fate[q].at;
        assert emitted[at].event == q;
      }
    }

    // The clock reaches the deadline of some timer, which fires.
    method FireNext() returns (k: Key)
      requires Valid() && timers != map[]
      modifies this
      ensures Valid() && queued == old(queued)
      ensures |emitted| + |Stores(table)| == |old(emitted)| + |Stores(old(table))|
      ensures |table| + |Stores(table)| < |old(table)| + |Stores(old(table))|
      ensures multiset{k} + Due(table) == Due(old(table))
    {
      hide Traced, Held, Superseded, Spaced, Timed, KeyOf, Due;
      k :| k in timers;
      if now < timers[k] {
        Advance(timers[k] - now);
      }
      ghost var before := table;
      Expired(k);
      StoresAfter(before, k);
      DueAfter(before, k);
    }

    ghost predicate LastEmitted(q: nat)
      reads this
    {
      exists i ::
        && 0 <= i < |emitted| && emitted[i].event == q
        && forall j | i < j < |emitted| :: !SameKey(queued, q, emitted[j].event)
    }
  }

  // The timers still to fire if nothing else happens.
  ghost function Due(table: map<Key, Option<nat>>): multiset<Key> {
    multiset(table.Keys) + multiset(Stores(table))
  }

  lemma NothingDue()
    ensures Due(map[]) == multiset{} && Stores(map[]) == {}
  {
  }

  lemma DueAfter(table: map<Key, Option<nat>>, k: Key)
    requires k in table
    ensures Due(table) == multiset{k} + Due(if table[k].Some? then table[k := None] else table - {k})
  {
    if table[k].Some? {
      assert Stores(table) == Stores(table[k := None]) + {k};
      assert table[k := None].Keys == table.Keys;
    } else {
      assert Stores(table - {k}) == Stores(table);
      assert table.Keys == (table - {k}).Keys + {k};
    }
  }

  lemma StoresAfter(table: map<Key, Option<nat>>, k: Key)
    requires k in table
    ensures table[k].Some? ==>
              Stores(table) == Stores(table[k := None]) + {k} && |Stores(table)| == |Stores(table[k := None])| + 1
    ensures table[k].Some? ==> |table[k := None]| == |table|
    ensures table[k].None? ==> Stores(table - {k}) == Stores(table) && |table - {k}| == |table| - 1
  {
    if table[k].Some? {
      assert Stores(table) == Stores(table[k := None]) + {k};
      assert table[k := None].Keys == table.Keys;
    } else {
      assert Stores(table - {k}) == Stores(table);
      assert (table - {k}).Keys == table.Keys - {k};
    }
  }

  lemma EmitStoredSuperseded(queued: seq<Event>, fate: seq<Fate>, q: nat, at: nat)
    requires Superseded(queued, fate) && q < |queued|
    ensures Superseded(queued, fate[q := Emitted(at)])
  {
    hide KeyOf;
  }
}
