/** The monitor's numbered sets of file descriptors, whose descriptors are closed late. */
module FdSets {
  import opened Options

  datatype Entry = Entry(fd: int, removed: bool)

  datatype FdSet = FdSet(id: int, fds: seq<Entry>, dups: seq<int>) {
    predicate Empty() { fds == [] && dups == [] }
  }

  // What may be closed: removed descriptors, and all of a set that nothing uses when no monitor is connected.
  predicate Closable(e: Entry, idle: bool) {
    e.removed || idle
  }

  function Kept(fds: seq<Entry>, idle: bool): seq<Entry> {
    if fds == [] then []
    else if Closable(fds[0], idle) then Kept(fds[1..], idle)
    else [fds[0]] + Kept(fds[1..], idle)
  }

  function Closed(fds: seq<Entry>, idle: bool): multiset<int> {
    if fds == [] then multiset{}
    else if Closable(fds[0], idle) then multiset{fds[0].fd} + Closed(fds[1..], idle)
    else Closed(fds[1..], idle)
  }

  function Numbers(fds: seq<Entry>): multiset<int> {
    if fds == [] then multiset{} else multiset{fds[0].fd} + Numbers(fds[1..])
  }

  lemma NumbersCons(e: Entry, fds: seq<Entry>)
    ensures Numbers([e] + fds) == multiset{e.fd} + Numbers(fds)
  {
    assert ([e] + fds)[1..] == fds;
  }

  /** Every descriptor is either kept or closed. */
  lemma {:induction false} KeptOrClosed(fds: seq<Entry>, idle: bool)
    ensures Numbers(fds) == Numbers(Kept(fds, idle)) + Closed(fds, idle)
  {
    hide Closable;
    if fds != [] {
      KeptOrClosed(fds[1..], idle);
      if !Closable(fds[0], idle) {
        NumbersCons(fds[0], Kept(fds[1..], idle));
      }
    }
  }

  /** Which of the two depends on the descriptor alone. */
  lemma {:induction false} KeptAre(fds: seq<Entry>, idle: bool)
    ensures forall e :: e in Kept(fds, idle) <==> e in fds && !Closable(e, idle)
  {
    hide Closable;
    if fds != [] {
      KeptAre(fds[1..], idle);
    }
  }

  lemma {:induction false} ClosedAre(fds: seq<Entry>, idle: bool, x: int)
    ensures x in Closed(fds, idle) <==> exists e :: e in fds && e.fd == x && Closable(e, idle)
  {
    hide Closable;
    if fds != [] {
      ClosedAre(fds[1..], idle, x);
    }
  }

  // All descriptors in the sets.
  function Listed(sets: seq<FdSet>): multiset<int> {
    if sets == [] then multiset{} else Numbers(sets[0].fds) + Listed(sets[1..])
  }

  lemma {:induction false} ListedAppend(a: seq<FdSet>, b: seq<FdSet>)
    ensures Listed(a + b) == Listed(a) + Listed(b)
  {
    hide Numbers;
    if a != [] {
      ListedAppend(a[1..], b);
      assert (a + b)[1..] == a[1..] + b;
    } else {
      assert a + b == b;
    }
  }

  lemma NoneListed()
    ensures Listed([]) == multiset{}
  {
  }

  lemma ListedOne(s: FdSet)
    ensures Listed([s]) == Numbers(s.fds)
  {
    assert [s][1..] == [];
  }

  ghost predicate Ordered(sets: seq<FdSet>) {
    && (forall i | 0 <= i < |sets| :: 0 <= sets[i].id)
    && (forall i, j | 0 <= i < j < |sets| :: sets[i].id < sets[j].id)
  }

  ghost predicate HasId(sets: seq<FdSet>, id: int) {
    exists i :: 0 <= i < |sets| && sets[i].id == id
  }

  /** Between before and after only the set with this id has changed, to now. */
  ghost predicate Changed(before: seq<FdSet>, after: seq<FdSet>, id: int, now: Option<FdSet>) {
    forall s :: s in after <==> (s in before && s.id != id) || now == Some(s)
  }

  /** An ordered list is determined by what it holds, so Changed says everything about the list. */
  lemma {:induction false} OrderedDetermined(a: seq<FdSet>, b: seq<FdSet>)
    requires Ordered(a) && Ordered(b) && forall s :: s in a <==> s in b
    ensures a == b
  {
    if b != [] {
      assert b[0] in a;
    }
    if a != [] {
      assert a[0] in b && b[0] in a;
      assert a[0] == b[0];
      forall s
        ensures s in a[1..] <==> s in b[1..]
      {
        if s in a[1..] { assert s in b && s != b[0]; }
        if s in b[1..] { assert s in a && s != a[0]; }
      }
      OrderedDetermined(a[1..], b[1..]);
    }
  }

  predicate Distinct(s: seq<int>) {
    forall i, j | 0 <= i < j < |s| :: s[i] != s[j]
  }

  ghost predicate Sound(sets: seq<FdSet>) {
    Ordered(sets) && forall i | 0 <= i < |sets| :: !sets[i].Empty() && Distinct(sets[i].dups)
  }

  function OptionSeq(s: Option<FdSet>): seq<FdSet> {
    if s.None? then [] else [s.value]
  }

  function Replaced(sets: seq<FdSet>, i: nat, s: Option<FdSet>): seq<FdSet>
    requires i < |sets|
  {
    sets[..i] + OptionSeq(s) + sets[i + 1..]
  }

  lemma ReplacedOrdered(sets: seq<FdSet>, i: nat, s: Option<FdSet>)
    requires i < |sets| && Ordered(sets) && (s.Some? ==> s.value.id == sets[i].id)
    ensures Ordered(Replaced(sets, i, s))
  {
  }

  lemma ReplacedChanged(sets: seq<FdSet>, i: nat, s: Option<FdSet>)
    requires i < |sets| && Ordered(sets) && (s.Some? ==> s.value.id == sets[i].id)
    ensures Changed(sets, Replaced(sets, i, s), sets[i].id, s)
  {
    var low, high := sets[..i], sets[i + 1..];
    assert sets == low + [sets[i]] + high;
    assert forall x | x in low :: x.id < sets[i].id;
    assert forall x | x in high :: x.id > sets[i].id;
    hide Ordered;
    assert forall x :: x in Replaced(sets, i, s) <==> x in low || x in high || s == Some(x);
    assert forall x :: x in sets <==> x in low || x in high || x == sets[i];
  }

  lemma ReplacedSound(sets: seq<FdSet>, i: nat, s: Option<FdSet>)
    requires i < |sets| && Sound(sets)
    requires s.Some? ==> s.value.id == sets[i].id && !s.value.Empty() && Distinct(s.value.dups)
    ensures Sound(Replaced(sets, i, s))
  {
    hide Distinct, FdSet.Empty;
    ReplacedOrdered(sets, i, s);
    hide Ordered;
  }

  lemma ReplacedListed(sets: seq<FdSet>, i: nat, s: Option<FdSet>)
    requires i < |sets|
    ensures Listed(Replaced(sets, i, s)) + Numbers(sets[i].fds)
         == Listed(sets) + if s.Some? then Numbers(s.value.fds) else multiset{}
  {
    hide Numbers, Listed;
    NoneListed();
    ListedAppend(sets[..i] + OptionSeq(s), sets[i + 1..]);
    ListedAppend(sets[..i], OptionSeq(s));
    assert sets == sets[..i] + ([sets[i]] + sets[i + 1..]);
    ListedAppend(sets[..i], [sets[i]] + sets[i + 1..]);
    ListedAppend([sets[i]], sets[i + 1..]);
    ListedOne(sets[i]);
    if s.Some? {
      ListedOne(s.value);
    }
  }

  lemma Inserted(sets: seq<FdSet>, at: nat, s: FdSet)
    requires at <= |sets| && Sound(sets) && 0 <= s.id && !s.Empty() && Distinct(s.dups)
    requires at > 0 ==> sets[at - 1].id < s.id
    requires at < |sets| ==> s.id < sets[at].id
    ensures Sound(sets[..at] + [s] + sets[at..])
  {
    hide Distinct, FdSet.Empty;
  }

  lemma InsertedChanged(sets: seq<FdSet>, at: nat, s: FdSet)
    requires at <= |sets| && Ordered(sets)
    requires at > 0 ==> sets[at - 1].id < s.id
    requires at < |sets| ==> s.id < sets[at].id
    ensures !HasId(sets, s.id) && Changed(sets, sets[..at] + [s] + sets[at..], s.id, Some(s))
  {
    assert sets == sets[..at] + sets[at..];
    assert forall x :: x in sets <==> x in sets[..at] || x in sets[at..];
  }

  lemma InsertedListed(sets: seq<FdSet>, at: nat, s: FdSet)
    requires at <= |sets|
    ensures Listed(sets[..at] + [s] + sets[at..]) == Listed(sets) + Numbers(s.fds)
  {
    hide Numbers, Listed;
    assert sets == sets[..at] + sets[at..];
    ListedAppend(sets[..at] + [s], sets[at..]);
    ListedAppend(sets[..at], [s]);
    ListedAppend(sets[..at], sets[at..]);
    ListedOne(s);
  }

  // The position of the first entry for fd.
  function EntryAt(fds: seq<Entry>, fd: int): (n: nat)
    ensures n <= |fds|
    ensures n < |fds| ==> fds[n].fd == fd
    ensures forall i | 0 <= i < n :: fds[i].fd != fd
  {
    if fds == [] || fds[0].fd == fd then 0 else 1 + EntryAt(fds[1..], fd)
  }

  function AllRemoved(fds: seq<Entry>): (r: seq<Entry>)
    ensures |r| == |fds| && forall i | 0 <= i < |r| :: r[i] == Entry(fds[i].fd, true)
  {
    seq(|fds|, i requires 0 <= i < |fds| => Entry(fds[i].fd, true))
  }

  lemma {:induction false} SameNumbers(a: seq<Entry>, b: seq<Entry>)
    requires |a| == |b| && forall i | 0 <= i < |a| :: a[i].fd == b[i].fd
    ensures Numbers(a) == Numbers(b)
  {
    if a != [] {
      SameNumbers(a[1..], b[1..]);
    }
  }

  // What monitor_fdset_cleanup makes of a set.
  function Cleaned(s: FdSet, running: bool, connected: int): FdSet {
    if running then s.(fds := Kept(s.fds, s.dups == [] && connected == 0)) else s
  }

  function Cleared(s: FdSet, running: bool, connected: int): multiset<int> {
    if running then Closed(s.fds, s.dups == [] && connected == 0) else multiset{}
  }

  function NonEmpty(s: FdSet): Option<FdSet> {
    if s.Empty() then None else Some(s)
  }
  // The list after every set has been cleaned up.
  function AllCleaned(sets: seq<FdSet>, running: bool, connected: int): seq<FdSet> {
    if sets == [] then [] else
      OptionSeq(NonEmpty(Cleaned(sets[0], running, connected))) + AllCleaned(sets[1..], running, connected)
  }

  function AllCleared(sets: seq<FdSet>, running: bool, connected: int): multiset<int> {
    if sets == [] then multiset{} else
      Cleared(sets[0], running, connected) + AllCleared(sets[1..], running, connected)
  }

  lemma CleanedKeepsAll(s: FdSet, running: bool, connected: int)
    ensures Numbers(s.fds) == Numbers(Cleaned(s, running, connected).fds) + Cleared(s, running, connected)
  {
    KeptOrClosed(s.fds, s.dups == [] && connected == 0);
  }

  // The first id that no set has, counting from 0.
  ghost predicate FirstFree(sets: seq<FdSet>, id: int) {
    0 <= id && !HasId(sets, id) && forall j | 0 <= j < id :: HasId(sets, j)
  }

  datatype Action =
    | Add(msgfd: Option<int>, setId: Option<int>)
    | Remove(id: int, fd: Option<int>)
    | AddDup(id: int, dup: int)
    | RemoveDup(dup: int)
    | Connect
    | Disconnect
    | SetRunning(running: bool)

  class Monitor {
    var sets: seq<FdSet>
    var connected: int
    var running: bool
    // Every descriptor passed in, and every one closed.
    var received: multiset<int>
    var closed: multiset<int>

    ghost predicate Valid()
      reads this
    {
      Sound(sets) && received == Listed(sets) + closed
    }

    constructor ()
      ensures Valid() && sets == [] && connected == 0 && received == multiset{}
    {
      sets, connected, running, received, closed := [], 0, false, multiset{}, multiset{};
    }

    // The loop of monitor_fdset_cleanup.
    method CloseFds(s: FdSet) returns (cleaned: FdSet)
      modifies this`closed
      ensures cleaned == Cleaned(s, running, connected)
      ensures closed == old(closed) + Cleared(s, running, connected)
    {
      hide Closable, Cleaned, Cleared;
      var kept, rest := [], s.fds;
      assert s.(fds := rest) == s;
      while rest != []
        invariant Cleaned(s, running, connected).fds == kept + Cleaned(s.(fds := rest), running, connected).fds
        invariant closed + Cleared(s.(fds := rest), running, connected) == old(closed) + Cleared(s, running, connected)
      {
        CleanFirst(s.(fds := rest), running, connected);
        if Closable(rest[0], s.dups == [] && connected == 0) && running {
          closed := closed + multiset{rest[0].fd};
        } else {
          kept := kept + [rest[0]];
        }
        rest := rest[1..];
      }
      CleanNone(s.(fds := rest), running, connected);
      CleanedKeeps(s, running, connected);
      cleaned := s.(fds := kept);
    }

    method CleanupSet(i: nat) returns (gone: bool)
      requires i < |sets|
      modifies this`sets, this`closed
      ensures var s := old(sets)[i];
              && sets == Replaced(old(sets), i, NonEmpty(Cleaned(s, running, connected)))
              && closed == old(closed) + Cleared(s, running, connected)
              && gone == Cleaned(s, running, connected).Empty()
    {
      hide Cleaned, Cleared;
      var cleaned := CloseFds(sets[i]);
      gone := cleaned.Empty();
      if gone {
        sets := sets[..i] + sets[i + 1..];
        assert sets == Replaced(old(sets), i, None);
      } else {
        sets := sets[..i] + [cleaned] + sets[i + 1..];
      }
    }

    // The set at i has been marked or has lost its last user.
    method Settle(i: nat, s: FdSet)
      requires i < |sets| && Valid() && s.id == sets[i].id && Distinct(s.dups) && Numbers(s.fds) == Numbers(sets[i].fds)
      modifies this`sets, this`closed
      ensures Valid()
      ensures Changed(old(sets), sets, s.id, NonEmpty(Cleaned(s, running, connected)))
      ensures closed == old(closed) + Cleared(s, running, connected)
    {
      hide Distinct, Numbers, Listed, Cleaned, Cleared, Closable, Changed, Sound;
      ghost var before := sets;
      Settled(sets, i, s, running, connected, closed);
      sets := sets[..i] + [s] + sets[i + 1..];
      var gone := CleanupSet(i);
      assert sets == Replaced(before, i, NonEmpty(Cleaned(s, running, connected)));
    }

    // The first loop of monitor_fdset_add_fd, which stops early because the list is ordered.
    method Search(id: int) returns (found: bool, at: nat)
      requires Ordered(sets)
      ensures found ==> at < |sets| && sets[at].id == id
      ensures !found ==> !HasId(sets, id)
    {
      found, at := false, 0;
      while at < |sets| && sets[at].id < id
        invariant at <= |sets| && forall i | 0 <= i < at :: sets[i].id < id
      {
        at := at + 1;
      }
      found := at < |sets| && sets[at].id == id;
    }

    // The set the new one is inserted next to, and the id of the new one.
    method Neighbour(setId: Option<int>) returns (cur: int, id: int)
      requires Ordered(sets) && (setId.Some? ==> 0 <= setId.value && !HasId(sets, setId.value))
      ensures sets == [] ==> cur == -1
      ensures sets != [] ==> 0 <= cur < |sets| && forall i | 0 <= i < cur :: sets[i].id < id
      ensures sets != [] ==> sets[cur].id != id
      ensures sets != [] && cur < |sets| - 1 ==> id < sets[cur].id
      ensures if setId.Some? then id == setId.value else FirstFree(sets, id)
    {
      cur := if sets == [] then -1 else 0;
      var i := 0;
      match setId
      case Some(given) =>
        id := given;
        while i < |sets|
          invariant i <= |sets| && forall j | 0 <= j < i :: sets[j].id < given
          invariant i > 0 ==> cur == i - 1
          invariant i == 0 ==> cur == if sets == [] then -1 else 0
        {
          cur := i;
          if given < sets[i].id {
            break;
          }
          assert sets[i].id != given;
          i := i + 1;
        }
      case None =>
        var prev := -1;
        while i < |sets|
          invariant i <= |sets| && prev == i - 1 && forall j | 0 <= j < i :: sets[j].id == j
          invariant i > 0 ==> cur == i - 1
          invariant i == 0 ==> cur == if sets == [] then -1 else 0
        {
          cur := i;
          if prev != sets[i].id - 1 {
            assert i > 0 ==> sets[i - 1].id == i - 1;
            assert sets[i].id > i;
            break;
          }
          prev := sets[i].id;
          i := i + 1;
        }
        id := prev + 1;
        assert forall j | 0 <= j < i :: sets[j].id == j && HasId(sets, j);
    }

    method AddFd(fd: int, setId: Option<int>) returns (r: Option<int>)
      requires Sound(sets)
      modifies this`sets
      ensures Sound(sets)
      ensures r.None? <==> setId.Some? && setId.value < 0
      ensures r.None? ==> sets == old(sets)
      ensures r.Some? ==> (if setId.Some? then r == setId else FirstFree(old(sets), r.value))
      ensures r.Some? ==> Added(old(sets), sets, r.value, fd)
      ensures Listed(sets) == Listed(old(sets)) + if r.Some? then multiset{fd} else multiset{}
    {
      hide Sound, Added, Listed, Numbers, Replaced, FirstFree, HasId;
      var found, at := false, 0;
      SoundIsOrdered(sets);
      if setId.Some? {
        found, at := Search(setId.value);
      }
      if found {
        var s := sets[at];
        AddedToSet(sets, at, fd);
        sets := Replaced(sets, at, Some(s.(fds := [Entry(fd, false)] + s.fds)));
        return setId;
      }
      if setId.Some? && setId.value < 0 {
        return None;
      }
      var cur, id := Neighbour(setId);
      at := if cur == -1 || id < sets[cur].id then (if cur == -1 then 0 else cur) else cur + 1;
      AddedNewSet(sets, at, id, fd);
      sets := sets[..at] + [FdSet(id, [Entry(fd, false)], [])] + sets[at..];
      return Some(id);
    }

    // qmp_add_fd: what cannot be added is closed.
    method QmpAddFd(msgfd: Option<int>, setId: Option<int>) returns (r: Option<int>)
      requires Valid()
      modifies this`sets, this`received, this`closed
      ensures Valid()
      ensures r.None? <==> msgfd.None? || (setId.Some? && setId.value < 0)
      ensures r.None? ==> sets == old(sets)
      ensures r.Some? ==> (if setId.Some? then r == setId else FirstFree(old(sets), r.value))
      ensures r.Some? ==> Added(old(sets), sets, r.value, msgfd.value)
      ensures closed == old(closed) + if msgfd.Some? && r.None? then multiset{msgfd.value} else multiset{}
      ensures received == old(received) + if msgfd.Some? then multiset{msgfd.value} else multiset{}
    {
      hide Sound, Added, Listed, FirstFree;
      if msgfd.None? {
        return None;
      }
      received := received + multiset{msgfd.value};
      r := AddFd(msgfd.value, setId);
      if r.None? {
        closed := closed + multiset{msgfd.value};
      }
    }

    // qmp_remove_fd: marks one descriptor of the set, or all of them, and cleans up.
    method RemoveFd(id: int, fd: Option<int>) returns (ok: bool)
      requires Valid()
      modifies this`sets, this`closed
      ensures Valid()
      ensures ok <==> exists s :: s in old(sets) && s.id == id && Names(s, fd)
      ensures !ok ==> sets == old(sets) && closed == old(closed)
      // The set is cleaned up with these entries marked and no others.
      ensures forall s, t | s in old(sets) && s.id == id && Names(s, fd) && MarkedAs(s, t, fd) ::
                && Changed(old(sets), sets, id, NonEmpty(Cleaned(t, running, connected)))
                && closed == old(closed) + Cleared(t, running, connected)
      // While the machine runs, what was marked is out of the set and closed.
      ensures running ==> forall s, e | s in sets && s.id == id && e in s.fds && ok :: !e.removed
      ensures running && ok && fd.Some? ==> closed[fd.value] > old(closed)[fd.value]
      ensures running && ok && fd.None? ==>
                forall s | s in old(sets) && s.id == id :: closed == old(closed) + Numbers(s.fds)
    {
      hide Sound, Listed, Changed, Cleaned, Cleared, Marked, Numbers, Distinct;
      SoundIsOrdered(sets);
      var found, at := false, 0;
      found, at := Find(id);
      if !found {
        return false;
      }
      OnlyOne(sets, at);
      var s := sets[at];
      if fd.Some? && EntryAt(s.fds, fd.value) == |s.fds| {
        return false;
      }
      MarkedIs(s, fd);
      MarkedKeeps(s, fd);
      DupsDistinct(sets, at);
      ghost var marked := Marked(s, fd);
      forall t | MarkedAs(s, t, fd)
        ensures t == marked
      {
        MarkedOnly(s, t, marked, fd);
      }
      if running {
        MarkedCloses(s, fd, connected);
      }
      Settle(at, Marked(s, fd));
      OnlyChanged(old(sets), sets, id, NonEmpty(Cleaned(marked, running, connected)));
      return true;
    }

    // The plain search of the other operations.
    method Find(id: int) returns (found: bool, at: nat)
      ensures found ==> at < |sets| && sets[at].id == id
      ensures !found ==> forall s :: s in sets ==> s.id != id
    {
      for i := 0 to |sets|
        invariant forall j | 0 <= j < i :: sets[j].id != id
      {
        if sets[i].id == id {
          return true, i;
        }
      }
      return false, 0;
    }

    // monitor_fdset_dup_fd_add
    method AddDup(id: int, dup: int) returns (ok: bool)
      requires Valid()
      modifies this`sets
      ensures Valid()
      ensures ok <==> exists s :: s in old(sets) && s.id == id && dup !in s.dups
      ensures !ok ==> sets == old(sets)
      ensures forall s | s in old(sets) && s.id == id && dup !in s.dups ::
                Changed(old(sets), sets, id, Some(s.(dups := [dup] + s.dups)))
    {
      hide Sound, Listed, Changed, Numbers, Distinct, Replaced;
      SoundIsOrdered(sets);
      var found, at := Find(id);
      if !found {
        return false;
      }
      OnlyOne(sets, at);
      var s := sets[at];
      if dup in s.dups {
        return false;
      }
      DupsDistinct(sets, at);
      DistinctCons(dup, s.dups);
      DupsReplaced(sets, at, [dup] + s.dups);
      sets := Replaced(sets, at, Some(s.(dups := [dup] + s.dups)));
      return true;
    }

    // The nested loops of monitor_fdset_dup_fd_find_remove.
    method FindHolder(dup: int) returns (n: nat)
      ensures n == HolderAt(sets, dup)
    {
      n := 0;
      while n < |sets|
        invariant n <= |sets| && HolderAt(sets, dup) >= n
      {
        for k := 0 to |sets[n].dups|
          invariant forall j | 0 <= j < k :: sets[n].dups[j] != dup
        {
          if sets[n].dups[k] == dup {
            return;
          }
        }
        n := n + 1;
      }
    }

    // monitor_fdset_dup_fd_find
    method FindDup(dup: int) returns (id: int)
      ensures var n := HolderAt(sets, dup); id == if n < |sets| then sets[n].id else -1
    {
      var n := FindHolder(dup);
      return if n < |sets| then sets[n].id else -1;
    }

    // monitor_fdset_dup_fd_remove: the last user of a set triggers its clean-up.
    method RemoveDup(dup: int)
      requires Valid()
      modifies this`sets, this`closed
      ensures Valid()
      ensures HolderAt(old(sets), dup) == |old(sets)| ==> sets == old(sets) && closed == old(closed)
      ensures HolderAt(old(sets), dup) < |old(sets)| ==>
                var s := old(sets)[HolderAt(old(sets), dup)];
                var left := s.(dups := Without(s.dups, dup));
                if left.dups == [] then
                  Changed(old(sets), sets, s.id, NonEmpty(Cleaned(left, running, connected)))
                  && closed == old(closed) + Cleared(left, running, connected)
                else
                  Changed(old(sets), sets, s.id, Some(left)) && closed == old(closed)
    {
      hide Sound, Listed, Changed, Numbers, Distinct, Replaced, Cleaned, Cleared;
      var at := FindHolder(dup);
      if at < |sets| {
        var s := sets[at];
        DupsDistinct(sets, at);
        WithoutDistinct(s.dups, dup);
        var left := s.(dups := Without(s.dups, dup));
        if left.dups == [] {
          Settle(at, left);
        } else {
          DupsReplaced(sets, at, left.dups);
          sets := Replaced(sets, at, Some(left));
        }
      }
    }

    // monitor_fdsets_cleanup
    method Cleanup()
      requires Valid()
      modifies this`sets, this`closed
      ensures Valid()
      ensures sets == AllCleaned(old(sets), running, connected)
      ensures closed == old(closed) + AllCleared(old(sets), running, connected)
    {
      hide Sound, Listed, Numbers, Cleaned, Cleared, AllCleaned, AllCleared;
      AllCleanedSound(sets, running, connected);
      AllCleanedKeeps(sets, running, connected);
      CleanupEach();
      Regroup(Listed(sets), AllCleared(old(sets), running, connected), old(closed));
    }

    // Its loop; the list changes under it.
    method CleanupEach()
      modifies this`sets, this`closed
      ensures sets == AllCleaned(old(sets), running, connected)
      ensures closed == old(closed) + AllCleared(old(sets), running, connected)
    {
      hide Cleaned, Cleared, AllCleaned, AllCleared;
      var i := 0;
      ghost var rest := sets;
      while i < |sets|
        invariant i <= |sets| && sets[i..] == rest
        invariant sets[..i] + AllCleaned(rest, running, connected) == AllCleaned(old(sets), running, connected)
        invariant closed + AllCleared(rest, running, connected)
               == old(closed) + AllCleared(old(sets), running, connected)
        decreases |rest|
      {
        AllFirst(rest, running, connected);
        ghost var done, cleaned := sets[..i], NonEmpty(Cleaned(sets[i], running, connected));
        assert rest[0] == sets[i] && sets[i + 1..] == rest[1..];
        var gone := CleanupSet(i);
        rest := rest[1..];
        assert sets == done + OptionSeq(cleaned) + rest;
        if !gone {
          i := i + 1;
        }
        assert sets[i..] == rest && sets[..i] == done + OptionSeq(cleaned);
      }
      AllNone(running, connected);
      assert rest == [] && sets[..i] == sets;
    }

    // A monitor's client connects or goes away.
    method Connect()
      requires Valid()
      modifies this`connected
      ensures Valid() && connected == old(connected) + 1
    {
      connected := connected + 1;
    }

    method Disconnect()
      requires Valid()
      modifies this`sets, this`closed, this`connected
      ensures Valid() && connected == old(connected) - 1
      ensures sets == AllCleaned(old(sets), running, connected)
      ensures closed == old(closed) + AllCleared(old(sets), running, connected)
    {
      connected := connected - 1;
      Cleanup();
    }

    method SetRunning(running: bool)
      requires Valid()
      modifies this`running
      ensures Valid() && this.running == running
    {
      this.running := running;
    }

    /**
     * Whatever is done in whatever order: the ids stay in order, no set is empty, and no descriptor is lost or closed
     * twice.
     */
    method Run(script: seq<Action>)
      requires Valid()
      modifies this
      ensures Valid()
      ensures received == Listed(sets) + closed
    {
      hide Sound, Listed, AllCleaned, AllCleared, Changed, Added, Replaced;
      for i := 0 to |script|
        invariant Valid()
      {
        match script[i]
        case Add(msgfd, setId) => var _ := QmpAddFd(msgfd, setId);
        case Remove(id, fd) => var _ := RemoveFd(id, fd);
        case AddDup(id, dup) => var _ := AddDup(id, dup);
        case RemoveDup(dup) => RemoveDup(dup);
        case Connect => Connect();
        case Disconnect => Disconnect();
        case SetRunning(on) => SetRunning(on);
      }
    }
  }

  lemma OnlyChanged(before: seq<FdSet>, after: seq<FdSet>, id: int, now: Option<FdSet>)
    requires Changed(before, after, id, now)
    ensures forall s | s in after && s.id == id :: now == Some(s)
  {
  }

  // The set has the descriptor, if one is given.
  predicate Names(s: FdSet, fd: Option<int>) {
    fd.Some? ==> exists e :: e in s.fds && e.fd == fd.value
  }

  function Marked(s: FdSet, fd: Option<int>): FdSet {
    match fd
    case None => s.(fds := AllRemoved(s.fds))
    case Some(x) =>
      if EntryAt(s.fds, x) < |s.fds| then s.(fds := s.fds[EntryAt(s.fds, x) := Entry(x, true)]) else s
  }

  /** t is s with the first entry of fd marked as removed, or all entries if none is given, and nothing else changed. */
  ghost predicate MarkedAs(s: FdSet, t: FdSet, fd: Option<int>) {
    && t.id == s.id && t.dups == s.dups && |t.fds| == |s.fds|
    && forall i | 0 <= i < |s.fds| ::
         && t.fds[i].fd == s.fds[i].fd
         && t.fds[i].removed == (s.fds[i].removed || fd.None? || IsFirst(s.fds, i, fd.value))
  }

  ghost predicate IsFirst(fds: seq<Entry>, i: int, x: int) {
    0 <= i < |fds| && fds[i].fd == x && forall j | 0 <= j < i :: fds[j].fd != x
  }

  lemma NamesByIndex(s: FdSet, x: int)
    ensures Names(s, Some(x)) <==> EntryAt(s.fds, x) < |s.fds|
    ensures forall i :: IsFirst(s.fds, i, x) <==> i == EntryAt(s.fds, x) < |s.fds|
  {
    hide EntryAt;
    if e :| e in s.fds && e.fd == x {
      var i :| 0 <= i < |s.fds| && s.fds[i] == e;
    }
    if EntryAt(s.fds, x) < |s.fds| {
      assert s.fds[EntryAt(s.fds, x)] in s.fds;
    }
  }

  lemma MarkedIs(s: FdSet, fd: Option<int>)
    ensures MarkedAs(s, Marked(s, fd), fd)
  {
    if fd.Some? {
      NamesByIndex(s, fd.value);
      hide EntryAt, IsFirst;
    }
  }

  lemma MarkedOnly(s: FdSet, t: FdSet, u: FdSet, fd: Option<int>)
    requires MarkedAs(s, t, fd) && MarkedAs(s, u, fd)
    ensures t == u
  {
    hide IsFirst;
    assert t.fds == u.fds;
  }

  // What a clean-up while the machine runs does with what was marked.
  lemma MarkedCloses(s: FdSet, fd: Option<int>, connected: int)
    ensures forall e | e in Cleaned(Marked(s, fd), true, connected).fds :: !e.removed
    ensures fd.Some? && Names(s, fd) ==> fd.value in Cleared(Marked(s, fd), true, connected)
    ensures fd.None? ==> Cleared(Marked(s, fd), true, connected) == Numbers(s.fds)
  {
    var marked := Marked(s, fd);
    var idle := s.dups == [] && connected == 0;
    MarkedIs(s, fd);
    KeptAre(marked.fds, idle);
    match fd
    case None =>
      AllRemovedClosed(marked.fds, idle);
      SameNumbers(marked.fds, s.fds);
    case Some(x) =>
      NamesByIndex(s, x);
      if Names(s, fd) {
        var i := EntryAt(s.fds, x);
        assert marked.fds[i] in marked.fds;
        ClosedAre(marked.fds, idle, x);
      }
  }

  lemma {:induction false} AllRemovedClosed(fds: seq<Entry>, idle: bool)
    requires forall i | 0 <= i < |fds| :: fds[i].removed
    ensures Closed(fds, idle) == Numbers(fds)
  {
    if fds != [] {
      AllRemovedClosed(fds[1..], idle);
    }
  }

  lemma MarkedKeeps(s: FdSet, fd: Option<int>)
    ensures Marked(s, fd).id == s.id && Marked(s, fd).dups == s.dups && Numbers(Marked(s, fd).fds) == Numbers(s.fds)
  {
    SameNumbers(Marked(s, fd).fds, s.fds);
  }

  lemma OnlyOne(sets: seq<FdSet>, at: nat)
    requires Ordered(sets) && at < |sets|
    ensures forall s | s in sets && s.id == sets[at].id :: s == sets[at]
    ensures sets[at] in sets
  {
  }

  lemma DupsDistinct(sets: seq<FdSet>, at: nat)
    requires Sound(sets) && at < |sets|
    ensures Distinct(sets[at].dups)
  {
  }

  lemma DistinctCons(x: int, s: seq<int>)
    requires Distinct(s) && x !in s
    ensures Distinct([x] + s)
  {
  }

  // Without the first x.
  function Without(s: seq<int>, x: int): seq<int> {
    if s == [] then [] else if s[0] == x then s[1..] else [s[0]] + Without(s[1..], x)
  }

  lemma {:induction false} WithoutDistinct(s: seq<int>, x: int)
    requires Distinct(s)
    ensures Distinct(Without(s, x)) && forall y :: y in Without(s, x) <==> y in s && y != x
  {
    if s != [] {
      assert forall y | y in s[1..] :: y != s[0];
      assert Distinct(s[1..]);
      WithoutDistinct(s[1..], x);
      if s[0] != x {
        DistinctCons(s[0], Without(s[1..], x));
      }
      hide Distinct;
      assert s == [s[0]] + s[1..];
    }
  }

  // The first set used through dup.
  function HolderAt(sets: seq<FdSet>, dup: int): (n: nat)
    ensures n <= |sets|
    ensures n < |sets| ==> dup in sets[n].dups
    ensures forall i | 0 <= i < n :: dup !in sets[i].dups
  {
    if sets == [] || dup in sets[0].dups then 0 else 1 + HolderAt(sets[1..], dup)
  }

  lemma DupsReplaced(sets: seq<FdSet>, at: nat, dups: seq<int>)
    requires Sound(sets) && at < |sets| && dups != [] && Distinct(dups)
    ensures var s := sets[at].(dups := dups);
            && Sound(Replaced(sets, at, Some(s)))
            && Changed(sets, Replaced(sets, at, Some(s)), s.id, Some(s))
            && Listed(Replaced(sets, at, Some(s))) == Listed(sets)
  {
    hide Distinct, Listed, Numbers, Replaced, Changed, Ordered;
    var s := sets[at].(dups := dups);
    ReplacedSound(sets, at, Some(s));
    ReplacedChanged(sets, at, Some(s));
    ReplacedListed(sets, at, Some(s));
    hide Sound;
    Cancel(Listed(Replaced(sets, at, Some(s))), Listed(sets), Numbers(s.fds));
  }

  lemma AllFirst(sets: seq<FdSet>, running: bool, connected: int)
    requires sets != []
    ensures AllCleaned(sets, running, connected)
         == OptionSeq(NonEmpty(Cleaned(sets[0], running, connected))) + AllCleaned(sets[1..], running, connected)
    ensures AllCleared(sets, running, connected)
         == Cleared(sets[0], running, connected) + AllCleared(sets[1..], running, connected)
  {
  }

  lemma AllNone(running: bool, connected: int)
    ensures AllCleaned([], running, connected) == [] && AllCleared([], running, connected) == multiset{}
  {
  }

  lemma HasIdTail(sets: seq<FdSet>, id: int)
    requires sets != [] && Ordered(sets) && HasId(sets[1..], id)
    ensures HasId(sets, id) && sets[0].id < id
  {
    var i :| 0 <= i < |sets| - 1 && sets[1..][i].id == id;
    assert sets[i + 1].id == id;
  }

  lemma SoundCons(s: FdSet, rest: seq<FdSet>)
    requires 0 <= s.id && !s.Empty() && Distinct(s.dups) && Sound(rest)
    requires forall t | t in rest :: s.id < t.id
    ensures Sound([s] + rest)
  {
    hide Distinct, FdSet.Empty;
  }

  lemma {:induction false} AllCleanedSound(sets: seq<FdSet>, running: bool, connected: int)
    requires Sound(sets)
    ensures Sound(AllCleaned(sets, running, connected))
    ensures forall s | s in AllCleaned(sets, running, connected) :: HasId(sets, s.id)
  {
    hide Cleaned;
    if sets != [] {
      AllCleanedSound(sets[1..], running, connected);
      CleanedKeeps(sets[0], running, connected);
      AllFirst(sets, running, connected);
      hide AllCleaned, Distinct;
      var rest, first := AllCleaned(sets[1..], running, connected), NonEmpty(Cleaned(sets[0], running, connected));
      forall s | s in rest
        ensures HasId(sets, s.id) && sets[0].id < s.id
      {
        HasIdTail(sets, s.id);
      }
      assert 0 <= sets[0].id && Distinct(sets[0].dups) && HasId(sets, sets[0].id);
      hide Sound, HasId;
      if first.Some? {
        SoundCons(first.value, rest);
      } else {
        assert AllCleaned(sets, running, connected) == rest;
      }
    }
  }

  lemma {:induction false} AllCleanedKeeps(sets: seq<FdSet>, running: bool, connected: int)
    ensures Listed(sets) == Listed(AllCleaned(sets, running, connected)) + AllCleared(sets, running, connected)
  {
    hide Numbers, Cleaned, Cleared;
    if sets != [] {
      var cleaned := Cleaned(sets[0], running, connected);
      AllCleanedKeeps(sets[1..], running, connected);
      AllFirst(sets, running, connected);
      assert Listed(sets) == Numbers(sets[0].fds) + Listed(sets[1..]);
      hide Listed, AllCleaned, AllCleared;
      OneListed(sets[0], running, connected);
      ListedAppend(OptionSeq(NonEmpty(cleaned)), AllCleaned(sets[1..], running, connected));
    }
  }

  lemma OneListed(s: FdSet, running: bool, connected: int)
    ensures Numbers(s.fds)
         == Listed(OptionSeq(NonEmpty(Cleaned(s, running, connected)))) + Cleared(s, running, connected)
  {
    CleanedKeeps(s, running, connected);
    CleanedKeepsAll(s, running, connected);
    ListedOne(Cleaned(s, running, connected));
    NoneListed();
    hide Cleaned, Cleared, Numbers, Listed;
  }

  /**
   * After a client has gone and while the machine runs, nothing removed is left, and once all clients have gone only
   * sets in use.
   */
  lemma {:induction false} CleanupLeaves(sets: seq<FdSet>, connected: int, s: FdSet)
    requires s in AllCleaned(sets, true, connected)
    ensures forall e | e in s.fds :: !e.removed
    ensures connected == 0 && s.fds != [] ==> s.dups != []
  {
    var cleaned := Cleaned(sets[0], true, connected);
    KeptAre(sets[0].fds, sets[0].dups == [] && connected == 0);
    if NonEmpty(cleaned) != Some(s) {
      CleanupLeaves(sets[1..], connected, s);
    } else if s.fds != [] {
      assert s.fds[0] in s.fds;
    }
  }

  // The descriptor has become the first of the set with this id, which is new if there was none.
  ghost predicate Added(before: seq<FdSet>, after: seq<FdSet>, id: int, fd: int) {
    && (!HasId(before, id) ==> Changed(before, after, id, Some(FdSet(id, [Entry(fd, false)], []))))
    && (forall s | s in before && s.id == id :: Changed(before, after, id, Some(s.(fds := [Entry(fd, false)] + s.fds))))
  }

  lemma SoundIsOrdered(sets: seq<FdSet>)
    requires Sound(sets)
    ensures Ordered(sets)
  {
  }

  lemma AddedToSet(sets: seq<FdSet>, at: nat, fd: int)
    requires Sound(sets) && at < |sets|
    ensures var s := sets[at];
            var after := Replaced(sets, at, Some(s.(fds := [Entry(fd, false)] + s.fds)));
            Sound(after) && Added(sets, after, s.id, fd) && Listed(after) == Listed(sets) + multiset{fd}
  {
    var s := sets[at];
    var grown := s.(fds := [Entry(fd, false)] + s.fds);
    assert forall x | x in sets && x.id == s.id :: x == s;
    assert HasId(sets, s.id);
    NumbersCons(Entry(fd, false), s.fds);
    hide HasId, Distinct, Numbers, Listed, Replaced, Ordered, Changed;
    hide Sound;
    SoundGrown(sets, at, grown);
    ReplacedListed(sets, at, Some(grown));
    Grown(Listed(sets), Listed(Replaced(sets, at, Some(grown))), Numbers(s.fds), fd);
  }

  lemma SoundGrown(sets: seq<FdSet>, at: nat, grown: FdSet)
    requires Sound(sets) && at < |sets| && grown == sets[at].(fds := grown.fds) && grown.fds != []
    ensures Sound(Replaced(sets, at, Some(grown)))
    ensures Changed(sets, Replaced(sets, at, Some(grown)), grown.id, Some(grown))
  {
    hide Distinct;
    ReplacedChanged(sets, at, Some(grown));
    hide Changed, Replaced;
    ReplacedSound(sets, at, Some(grown));
  }

  lemma Grown(before: multiset<int>, after: multiset<int>, rest: multiset<int>, fd: int)
    requires after + rest == before + (multiset{fd} + rest)
    ensures after == before + multiset{fd}
  {
    forall x
      ensures after[x] == (before + multiset{fd})[x]
    {
      assert (after + rest)[x] == (before + (multiset{fd} + rest))[x];
    }
  }

  lemma AddedNewSet(sets: seq<FdSet>, at: nat, id: int, fd: int)
    requires Sound(sets) && at <= |sets| && 0 <= id
    requires at > 0 ==> sets[at - 1].id < id
    requires at < |sets| ==> id < sets[at].id
    ensures var after := sets[..at] + [FdSet(id, [Entry(fd, false)], [])] + sets[at..];
            Sound(after) && Added(sets, after, id, fd) && Listed(after) == Listed(sets) + multiset{fd}
  {
    var s := FdSet(id, [Entry(fd, false)], []);
    Inserted(sets, at, s);
    InsertedChanged(sets, at, s);
    InsertedListed(sets, at, s);
    hide Ordered, Changed;
    assert [Entry(fd, false)][1..] == [];
    assert Numbers(s.fds) == multiset{fd};
  }

  lemma Settled(sets: seq<FdSet>, i: nat, s: FdSet, running: bool, connected: int, closed: multiset<int>)
    requires i < |sets| && Sound(sets) && s.id == sets[i].id
    requires Distinct(s.dups) && Numbers(s.fds) == Numbers(sets[i].fds)
    ensures var after := Replaced(sets, i, NonEmpty(Cleaned(s, running, connected)));
            && Sound(after)
            && Changed(sets, after, s.id, NonEmpty(Cleaned(s, running, connected)))
            && Listed(sets) + closed == Listed(after) + (closed + Cleared(s, running, connected))
  {
    hide Distinct, Numbers, Listed, Cleaned, Cleared, Closable, Changed, Replaced, Ordered;
    var cleaned := Cleaned(s, running, connected);
    var after := Replaced(sets, i, NonEmpty(cleaned));
    CleanedKeeps(s, running, connected);
    CleanedKeepsAll(s, running, connected);
    ReplacedSound(sets, i, NonEmpty(cleaned));
    ReplacedChanged(sets, i, NonEmpty(cleaned));
    ReplacedListed(sets, i, NonEmpty(cleaned));
    hide Sound;
    assert Listed(after) + Numbers(s.fds) == Listed(sets) + Numbers(cleaned.fds);
    Balance(Listed(sets), Listed(after), Numbers(s.fds), Numbers(cleaned.fds), Cleared(s, running, connected), closed);
  }

  /**
   * What a clean-up closes and keeps: nothing is closed unless the machine runs, and then only what was removed or, if
   * neither a dup nor a monitor uses the set, everything.
   */
  lemma CleanedExactly(s: FdSet, running: bool, connected: int)
    ensures var c := Cleaned(s, running, connected);
            && c.id == s.id && c.dups == s.dups
            && (forall e :: e in c.fds <==> e in s.fds && !(running && (e.removed || (s.dups == [] && connected == 0))))
            && Numbers(s.fds) == Numbers(c.fds) + Cleared(s, running, connected)
    ensures !running ==> Cleared(s, running, connected) == multiset{}
  {
    KeptAre(s.fds, s.dups == [] && connected == 0);
    CleanedKeepsAll(s, running, connected);
    hide Kept, Closed, Numbers;
  }

  /** What is kept stays in its order. */
  lemma {:induction false} KeptInOrder(fds: seq<Entry>, idle: bool, i: nat, j: nat) returns (a: nat, b: nat)
    requires i < j < |Kept(fds, idle)|
    ensures a < b < |fds| && fds[a] == Kept(fds, idle)[i] && fds[b] == Kept(fds, idle)[j]
  {
    hide Closable;
    var rest := Kept(fds[1..], idle);
    if Closable(fds[0], idle) {
      a, b := KeptInOrder(fds[1..], idle, i, j);
      a, b := a + 1, b + 1;
    } else if i > 0 {
      a, b := KeptInOrder(fds[1..], idle, i - 1, j - 1);
      a, b := a + 1, b + 1;
    } else {
      KeptAre(fds[1..], idle);
      assert rest[j - 1] in fds[1..];
      var k :| 0 <= k < |fds| - 1 && fds[1..][k] == rest[j - 1];
      a, b := 0, k + 1;
    }
  }

  /** After all sets have been cleaned up, the list holds what is left of each, without those that became empty. */
  lemma {:induction false} AllCleanedAre(sets: seq<FdSet>, running: bool, connected: int, t: FdSet)
    ensures t in AllCleaned(sets, running, connected)
       <==> exists s :: s in sets && t == Cleaned(s, running, connected) && !t.Empty()
  {
    hide Cleaned, FdSet.Empty;
    if sets != [] {
      AllCleanedAre(sets[1..], running, connected, t);
      AllFirst(sets, running, connected);
      hide AllCleaned;
      assert sets == [sets[0]] + sets[1..];
    }
  }

  lemma CleanFirst(s: FdSet, running: bool, connected: int)
    requires s.fds != []
    ensures var close := Closable(s.fds[0], s.dups == [] && connected == 0) && running;
            && Cleaned(s, running, connected).fds
            == (if close then [] else [s.fds[0]]) + Cleaned(s.(fds := s.fds[1..]), running, connected).fds
            && Cleared(s, running, connected)
            == (if close then multiset{s.fds[0].fd} else multiset{})
            + Cleared(s.(fds := s.fds[1..]), running, connected)
  {
    hide Closable;
  }

  lemma CleanNone(s: FdSet, running: bool, connected: int)
    requires s.fds == []
    ensures Cleaned(s, running, connected).fds == [] && Cleared(s, running, connected) == multiset{}
  {
  }

  lemma Cancel(a: multiset<int>, b: multiset<int>, c: multiset<int>)
    requires a + c == b + c
    ensures a == b
  {
    forall x
      ensures a[x] == b[x]
    {
      assert (a + c)[x] == (b + c)[x];
    }
  }

  lemma Regroup(a: multiset<int>, b: multiset<int>, c: multiset<int>)
    ensures (a + b) + c == a + (c + b)
  {
  }

  lemma Balance(before: multiset<int>, after: multiset<int>, whole: multiset<int>, kept: multiset<int>,
                gone: multiset<int>, closed: multiset<int>)
    requires after + whole == before + kept && whole == kept + gone
    ensures before + closed == after + (closed + gone)
  {
    forall x
      ensures (before + closed)[x] == (after + (closed + gone))[x]
    {
      assert (after + whole)[x] == (before + kept)[x];
    }
  }

  lemma CleanedKeeps(s: FdSet, running: bool, connected: int)
    ensures var c := Cleaned(s, running, connected);
            && c.id == s.id && c.dups == s.dups
            && (c.Empty() ==> Numbers(c.fds) == multiset{})
  {
  }
}
