/**
 The keyed mutexes behind both locks (internal/loops/requeue_guard.go, guardRegistry):
 entries are counted and reclaimed, under a registry mutex that is not held while waiting.
 Every interleaving of the four critical sections of lock and unlock is a run.
 */
module GuardRegistry {
  type Key = string

  /** Where a caller is: registered and waiting for its mutex, holding it, or done with it but still counted. */
  datatype Caller = Waiting(key: Key, mutex: nat) | Holding(key: Key, mutex: nat) | Leaving(key: Key, mutex: nat)

  /** `refs` is the count in each mutex's entry; `made` is how many mutexes were ever made. */
  datatype World = World(entries: map<Key, nat>, refs: map<nat, nat>, locked: set<nat>, made: nat, callers: map<nat,
      Caller>)

  datatype Event = Register(id: nat, key: Key) | Acquire(id: nat) | Unlock(id: nat) | Reclaim(id: nat)

  const EMPTY := World(map[], map[], {}, 0, map[])

  predicate Enabled(w: World, e: Event) {
    match e
    case Register(id, _) => id !in w.callers
    case Acquire(id) => id in w.callers && w.callers[id].Waiting? && w.callers[id].mutex !in w.locked
    case Unlock(id) => id in w.callers && w.callers[id].Holding?
    case Reclaim(id) => id in w.callers && w.callers[id].Leaving? && w.callers[id].mutex in w.refs && w.refs[w.callers[id].mutex] > 0
  }

  function Apply(w: World, e: Event): World
    requires Enabled(w, e)
  {
    match e
    case Register(id, key) =>
      var m := if key in w.entries then w.entries[key] else w.made;
      var refs := if key in w.entries && m in w.refs then w.refs[m] else 0;
      w.(entries := w.entries[key := m], refs := w.refs[m := refs + 1],
         made := if key in w.entries then w.made else w.made + 1,
         callers := w.callers[id := Waiting(key, m)])
    case Acquire(id) =>
      var c := w.callers[id];
      w.(locked := w.locked + {c.mutex}, callers := w.callers[id := Holding(c.key, c.mutex)])
    case Unlock(id) =>
      var c := w.callers[id];
      w.(locked := w.locked - {c.mutex}, callers := w.callers[id := Leaving(c.key, c.mutex)])
    case Reclaim(id) =>
      var c := w.callers[id];
      w.(refs := w.refs[c.mutex := w.refs[c.mutex] - 1],
         entries := if w.refs[c.mutex] == 1 then w.entries - {c.key} else w.entries,
         callers := w.callers - {id})
  }

  ghost predicate Feasible(w: World, run: seq<Event>)
    decreases |run|
  {
    run == [] || (Enabled(w, run[0]) && Feasible(Apply(w, run[0]), run[1..]))
  }

  ghost function Exec(w: World, run: seq<Event>): World
    requires Feasible(w, run)
    decreases |run|
  {
    if run == [] then w else Exec(Apply(w, run[0]), run[1..])
  }

  // ---------------------------------------------------------------------------
  // The invariant
  // ---------------------------------------------------------------------------

  ghost function Users(callers: map<nat, Caller>, mutex: nat): set<nat> {
    set id | id in callers && callers[id].mutex == mutex
  }

  /** Each caller's mutex is the one its key is registered under. */
  predicate Registered(w: World) {
    && (forall id :: id in w.callers ==> w.callers[id].key in w.entries && w.entries[w.callers[id].key] == w.callers[id].mutex)
    && (forall k, l :: k in w.entries && l in w.entries && w.entries[k] == w.entries[l] ==> k == l)
  }

  /** An entry is there exactly while it is counted, and its count is the number of callers using it. */
  ghost predicate Counted(w: World) {
    forall k :: k in w.entries ==> CountedAt(w, w.entries[k])
  }

  ghost predicate CountedAt(w: World, mutex: nat) {
    mutex < w.made && mutex in w.refs && w.refs[mutex] == |Users(w.callers, mutex)| >= 1
  }

  predicate BothHold(c: Caller, d: Caller) {
    c.Holding? && d.Holding? && c.mutex == d.mutex
  }

  predicate MutexesAreHeldOnce(w: World) {
    && (forall id :: id in w.callers && w.callers[id].Holding? ==> w.callers[id].mutex in w.locked)
    && (forall i, j :: i in w.callers && j in w.callers && BothHold(w.callers[i], w.callers[j]) ==> i == j)
    && (forall m :: m in w.locked ==> m < w.made)
  }

  ghost predicate Inv(w: World) {
    Registered(w) && Counted(w) && MutexesAreHeldOnce(w)
  }

  lemma OneUserMore(callers: map<nat, Caller>, id: nat, c: Caller, mutex: nat)
    requires id !in callers
    ensures |Users(callers[id := c], mutex)| == |Users(callers, mutex)| + if c.mutex == mutex then 1 else 0
  {
    if c.mutex == mutex {
      assert Users(callers[id := c], mutex) == Users(callers, mutex) + {id};
    } else {
      assert Users(callers[id := c], mutex) == Users(callers, mutex);
    }
  }

  lemma OneUserLess(callers: map<nat, Caller>, id: nat, mutex: nat)
    requires id in callers
    ensures |Users(callers - {id}, mutex)| == |Users(callers, mutex)| - if callers[id].mutex == mutex then 1 else 0
  {
    if callers[id].mutex == mutex {
      assert Users(callers, mutex) == Users(callers - {id}, mutex) + {id};
    } else {
      assert Users(callers, mutex) == Users(callers - {id}, mutex);
    }
  }

  lemma SameUsers(callers: map<nat, Caller>, id: nat, c: Caller, mutex: nat)
    requires id in callers && callers[id].mutex == c.mutex
    ensures Users(callers[id := c], mutex) == Users(callers, mutex)
  {
  }

  /** A mutex that was never made has no users. */
  lemma NobodyUses(w: World, mutex: nat)
    requires Registered(w) && Counted(w) && mutex >= w.made
    ensures Users(w.callers, mutex) == {}
  {
  }

  lemma RegisterKeepsCounts(w: World, id: nat, key: Key)
    requires Registered(w) && Counted(w) && Enabled(w, Register(id, key))
    ensures Counted(Apply(w, Register(id, key)))
  {
    hide Users;
    var t := Apply(w, Register(id, key));
    forall k | k in t.entries
      ensures CountedAt(t, t.entries[k])
    {
      OneUserMore(w.callers, id, t.callers[id], t.entries[k]);
      assert k in w.entries ==> CountedAt(w, w.entries[k]);
      if key !in w.entries {
        NobodyUses(w, w.made);
      }
    }
  }

  lemma RegisterKeepsRest(w: World, id: nat, key: Key)
    requires Inv(w) && Enabled(w, Register(id, key))
    ensures Registered(Apply(w, Register(id, key))) && MutexesAreHeldOnce(Apply(w, Register(id, key)))
  {
    hide Users, Counted, CountedAt;
    forall k | k in w.entries
      ensures w.entries[k] < w.made
    {
      MutexIsMade(w, k);
    }
    RegisterKeepsKeys(w, id, key);
    RegisterKeepsHolders(w, id, key);
  }

  lemma RegisterKeepsKeys(w: World, id: nat, key: Key)
    requires Registered(w) && Enabled(w, Register(id, key)) && forall k :: k in w.entries ==> w.entries[k] < w.made
    ensures Registered(Apply(w, Register(id, key)))
  {
  }

  lemma RegisterKeepsHolders(w: World, id: nat, key: Key)
    requires MutexesAreHeldOnce(w) && Enabled(w, Register(id, key))
    ensures MutexesAreHeldOnce(Apply(w, Register(id, key)))
  {
  }

  lemma HandOffKeepsCounts(w: World, e: Event)
    requires Counted(w) && Enabled(w, e) && (e.Acquire? || e.Unlock?)
    ensures Counted(Apply(w, e))
  {
    hide Users;
    var t := Apply(w, e);
    forall k | k in t.entries
      ensures CountedAt(t, t.entries[k])
    {
      assert CountedAt(w, w.entries[k]);
      SameUsers(w.callers, e.id, t.callers[e.id], t.entries[k]);
    }
  }

  lemma HandOffKeepsRest(w: World, e: Event)
    requires Inv(w) && Enabled(w, e) && (e.Acquire? || e.Unlock?)
    ensures Registered(Apply(w, e)) && MutexesAreHeldOnce(Apply(w, e))
  {
    hide Users, CountedAt;
    assert w.callers[e.id].key in w.entries;
    MutexIsMade(w, w.callers[e.id].key);
  }

  lemma MutexIsMade(w: World, key: Key)
    requires Counted(w) && key in w.entries
    ensures w.entries[key] < w.made
  {
    assert CountedAt(w, w.entries[key]);
  }

  /** The last user's key is nobody else's. */
  lemma LastUserLeaves(w: World, id: nat)
    requires Inv(w) && Enabled(w, Reclaim(id)) && w.refs[w.callers[id].mutex] == 1
    ensures forall j :: j in w.callers && j != id ==> w.callers[j].key != w.callers[id].key
  {
    var c := w.callers[id];
    assert CountedAt(w, w.entries[c.key]);
    OneUserLess(w.callers, id, c.mutex);
    forall j | j in w.callers && j != id
      ensures w.callers[j].key != c.key
    {
      UsersAre(w.callers - {id}, j, c.mutex);
    }
  }

  lemma UsersAre(callers: map<nat, Caller>, id: nat, mutex: nat)
    ensures id in Users(callers, mutex) <==> id in callers && callers[id].mutex == mutex
  {
  }

  lemma ReclaimKeepsCounts(w: World, id: nat)
    requires Inv(w) && Enabled(w, Reclaim(id))
    ensures Counted(Apply(w, Reclaim(id)))
  {
    hide Users;
    var t := Apply(w, Reclaim(id));
    forall k | k in t.entries
      ensures CountedAt(t, t.entries[k])
    {
      assert CountedAt(w, w.entries[k]);
      OneUserLess(w.callers, id, w.entries[k]);
    }
  }

  lemma ReclaimKeepsRest(w: World, id: nat)
    requires Inv(w) && Enabled(w, Reclaim(id))
    ensures Registered(Apply(w, Reclaim(id))) && MutexesAreHeldOnce(Apply(w, Reclaim(id)))
  {
    if w.refs[w.callers[id].mutex] == 1 {
      LastUserLeaves(w, id);
    }
  }

  lemma StepKeepsInv(w: World, e: Event)
    requires Inv(w) && Enabled(w, e)
    ensures Inv(Apply(w, e))
  {
    hide Registered, Counted, MutexesAreHeldOnce, Apply;
    match e
    case Register(id, key) =>
      RegisterKeepsCounts(w, id, key);
      RegisterKeepsRest(w, id, key);
    case Acquire(_) =>
      HandOffKeepsCounts(w, e);
      HandOffKeepsRest(w, e);
    case Unlock(_) =>
      HandOffKeepsCounts(w, e);
      HandOffKeepsRest(w, e);
    case Reclaim(id) =>
      ReclaimKeepsCounts(w, id);
      ReclaimKeepsRest(w, id);
  }

  lemma {:induction false} InvOverRuns(w: World, run: seq<Event>)
    requires Inv(w) && Feasible(w, run)
    ensures Inv(Exec(w, run))
    decreases |run|
  {
    if run != [] {
      StepKeepsInv(w, run[0]);
      InvOverRuns(Apply(w, run[0]), run[1..]);
    }
  }

  /** Over every run at most one caller holds a key's lock, although entries come and go. */
  lemma OneHolderPerKey(run: seq<Event>, i: nat, j: nat)
    requires Feasible(EMPTY, run)
    requires var w := Exec(EMPTY, run); i in w.callers && j in w.callers && w.callers[i].Holding? && w.callers[j].Holding?
    requires Exec(EMPTY, run).callers[i].key == Exec(EMPTY, run).callers[j].key
    ensures i == j
  {
    InvOverRuns(EMPTY, run);
  }

  lemma EntriesHaveUsers(w: World)
    requires Counted(w)
    ensures w.entries != map[] ==> w.callers != map[]
  {
    if k :| k in w.entries {
      assert CountedAt(w, w.entries[k]);
      NoCallersNoUsers(w.callers, w.entries[k]);
    }
  }

  lemma NoCallersNoUsers(callers: map<nat, Caller>, mutex: nat)
    ensures callers == map[] ==> Users(callers, mutex) == {}
  {
  }

  /** When everybody has left nothing stays behind. */
  lemma RegistryIsReclaimed(run: seq<Event>)
    requires Feasible(EMPTY, run) && Exec(EMPTY, run).callers == map[]
    ensures Exec(EMPTY, run).entries == map[]
  {
    InvOverRuns(EMPTY, run);
    EntriesHaveUsers(Exec(EMPTY, run));
  }

  // ---------------------------------------------------------------------------
  // Progress
  // ---------------------------------------------------------------------------

  predicate HeldBy(w: World, mutex: nat, id: nat) {
    id in w.callers && w.callers[id].Holding? && w.callers[id].mutex == mutex
  }

  /** A locked mutex has a holder. */
  ghost predicate LocksAreHeld(w: World) {
    forall m :: m in w.locked ==> exists id :: HeldBy(w, m, id)
  }

  lemma StepKeepsLocks(w: World, e: Event)
    requires Inv(w) && LocksAreHeld(w) && Enabled(w, e)
    ensures LocksAreHeld(Apply(w, e))
  {
    hide Registered, Counted;
    var t := Apply(w, e);
    forall m | m in t.locked
      ensures exists id :: HeldBy(t, m, id)
    {
      if e.Acquire? && w.callers[e.id].mutex == m {
        assert HeldBy(t, m, e.id);
      } else {
        var id :| HeldBy(w, m, id);
        assert BothHold(w.callers[id], w.callers[id]);
        assert HeldBy(t, m, id);
      }
    }
  }

  lemma {:induction false} LocksOverRuns(w: World, run: seq<Event>)
    requires Inv(w) && LocksAreHeld(w) && Feasible(w, run)
    ensures LocksAreHeld(Exec(w, run))
    decreases |run|
  {
    hide Inv, LocksAreHeld, Enabled, Apply;
    if run != [] {
      StepKeepsInv(w, run[0]);
      StepKeepsLocks(w, run[0]);
      LocksOverRuns(Apply(w, run[0]), run[1..]);
    }
  }

  /** Over every run a waiting caller can take the lock of its key exactly when nobody holds it. */
  lemma AcquiresIff(run: seq<Event>, id: nat)
    requires Feasible(EMPTY, run)
    requires var w := Exec(EMPTY, run); id in w.callers && w.callers[id].Waiting?
    ensures var w := Exec(EMPTY, run);
            Enabled(w, Acquire(id)) <==> forall j :: j in w.callers && w.callers[j].key == w.callers[id].key ==> !w.callers[j].Holding?
  {
    InvOverRuns(EMPTY, run);
    LocksOverRuns(EMPTY, run);
    var w := Exec(EMPTY, run);
    hide Counted;
    if w.callers[id].mutex in w.locked {
      var j :| HeldBy(w, w.callers[id].mutex, j);
      assert w.callers[j].key in w.entries && w.callers[id].key in w.entries;
    }
  }

  /** Nobody is stuck: while callers are left one of them can take, give up or leave its lock. */
  lemma SomeCallerCanProceed(run: seq<Event>, id: nat) returns (e: Event)
    requires Feasible(EMPTY, run) && id in Exec(EMPTY, run).callers
    ensures Enabled(Exec(EMPTY, run), e) && !e.Register?
  {
    InvOverRuns(EMPTY, run);
    LocksOverRuns(EMPTY, run);
    var w := Exec(EMPTY, run);
    var c := w.callers[id];
    match c
    case Holding(_, _) => e := Unlock(id);
    case Leaving(_, _) =>
      assert CountedAt(w, w.entries[c.key]);
      e := Reclaim(id);
    case Waiting(_, _) =>
      if c.mutex in w.locked {
        var j :| HeldBy(w, c.mutex, j);
        e := Unlock(j);
      } else {
        e := Acquire(id);
      }
  }
}
