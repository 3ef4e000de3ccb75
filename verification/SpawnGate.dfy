/**
 The per-loop spawn gate (internal/runtime/active_executions.go, BeginLoopStop to
 RestoreLoopStop): a refcount of holds whose map entry is also a generation.  A release
 closure owns a hold of its own generation only; clearing retires the generation.
 Draining agents is seen by the callers only as success or failure.
 */
module SpawnGate {
  import opened Wrappers

  type LoopId = string

  /** `generation` stands for the identity of the gate object. */
  datatype Gate = Gate(generation: nat, refs: nat)

  /** One loop's entry, and how many generations were ever made. */
  datatype Entry = Entry(live: Option<Gate>, made: nat)

  predicate Closed(e: Entry) {
    e.live.Some?
  }

  function Hold(e: Entry): Entry {
    match e.live
    case None => Entry(Some(Gate(e.made, 1)), e.made + 1)
    case Some(g) => Entry(Some(Gate(g.generation, g.refs + 1)), e.made)
  }

  /** The generation that a hold taken now belongs to. */
  function HoldGeneration(e: Entry): nat {
    if e.live.Some? then e.live.value.generation else e.made
  }

  function Drop(e: Entry, generation: nat): Entry {
    if e.live.None? || e.live.value.generation != generation then e
    else if e.live.value.refs <= 1 then Entry(None, e.made)
    else Entry(Some(Gate(generation, e.live.value.refs - 1)), e.made)
  }

  function Clear(e: Entry): Entry {
    Entry(None, e.made)
  }

  /** A hold that is dropped again leaves the gate exactly as it was found. */
  lemma HoldThenDrop(e: Entry)
    requires e.live.Some? ==> e.live.value.refs >= 1
    ensures Drop(Hold(e), HoldGeneration(e)).live == e.live
  {
  }

  /** Once cleared, a release taken before the clear does nothing, whatever happened to the gate since. */
  lemma RetiredReleaseIsInert(before: Entry, after: Entry)
    requires before.live.Some? ==> before.live.value.generation < before.made
    requires after.live.Some? ==> after.live.value.generation >= Clear(Hold(before)).made
    ensures Drop(after, HoldGeneration(before)) == after
  {
  }

  class ActiveExecutionRegistry {
    var stoppingLoops: map<LoopId, Gate>
    var made: nat

    ghost predicate Valid()
      reads this
    {
      forall id :: id in stoppingLoops ==> stoppingLoops[id].refs >= 1 && stoppingLoops[id].generation < made
    }

    ghost function EntryOf(loop: LoopId): Entry
      reads this
    {
      Entry(if loop in stoppingLoops then Some(stoppingLoops[loop]) else None, made)
    }

    constructor ()
      ensures Valid() && fresh(this) && forall loop :: !Closed(EntryOf(loop))
    {
      stoppingLoops, made := map[], 0;
    }

    method LoopStopActive(loop: LoopId) returns (active: bool)
      ensures active == Closed(EntryOf(loop))
    {
      active := loop in stoppingLoops;
    }

    method IncLoopStop(loop: LoopId) returns (generation: nat)
      requires Valid()
      modifies this
      ensures Valid() && EntryOf(loop) == Hold(old(EntryOf(loop))) && generation == HoldGeneration(old(EntryOf(loop)))
      ensures stoppingLoops - {loop} == old(stoppingLoops) - {loop}
    {
      if loop !in stoppingLoops {
        stoppingLoops := stoppingLoops[loop := Gate(made, 0)];
        made := made + 1;
      }
      var gate := stoppingLoops[loop];
      generation := gate.generation;
      stoppingLoops := stoppingLoops[loop := gate.(refs := gate.refs + 1)];
    }

    method BeginLoopStop(loop: LoopId) returns (release: StopRelease)
      requires Valid()
      modifies this
      ensures Valid() && EntryOf(loop) == Hold(old(EntryOf(loop)))
      ensures stoppingLoops - {loop} == old(stoppingLoops) - {loop}
      ensures fresh(release) && release.registry == this && release.loop == loop && !release.done
      ensures release.generation == HoldGeneration(old(EntryOf(loop)))
    {
      var generation := IncLoopStop(loop);
      release := new StopRelease(this, loop, generation);
    }

    method ClearLoopStop(loop: LoopId) returns (wasActive: bool)
      requires Valid()
      modifies this
      ensures Valid() && wasActive == (loop != "" && Closed(old(EntryOf(loop))))
      ensures EntryOf(loop) == if loop == "" then old(EntryOf(loop)) else Clear(old(EntryOf(loop)))
      ensures stoppingLoops - {loop} == old(stoppingLoops) - {loop}
    {
      if loop == "" {
        return false;
      }
      wasActive := loop in stoppingLoops;
      stoppingLoops := stoppingLoops - {loop};
    }

    method RestoreLoopStop(loop: LoopId)
      requires Valid()
      modifies this
      ensures Valid()
      ensures EntryOf(loop) == if loop == "" then old(EntryOf(loop)) else Hold(old(EntryOf(loop)))
      ensures stoppingLoops - {loop} == old(stoppingLoops) - {loop}
    {
      if loop != "" {
        var _ := IncLoopStop(loop);
      }
    }
  }

  /** The closure that BeginLoopStop returns: it drops its hold once, and only in its own generation. */
  class StopRelease {
    const registry: ActiveExecutionRegistry
    const loop: LoopId
    const generation: nat
    var done: bool

    constructor (registry: ActiveExecutionRegistry, loop: LoopId, generation: nat)
      ensures this.registry == registry && this.loop == loop && this.generation == generation && !done
    {
      this.registry, this.loop, this.generation, done := registry, loop, generation, false;
    }

    method Run()
      requires registry.Valid()
      modifies this, registry
      ensures registry.Valid() && done
      ensures registry.EntryOf(loop) ==
              if old(done) then old(registry.EntryOf(loop)) else Drop(old(registry.EntryOf(loop)), generation)
      ensures registry.stoppingLoops - {loop} == old(registry.stoppingLoops) - {loop}
    {
      if done {
        return;
      }
      done := true;
      if loop !in registry.stoppingLoops || registry.stoppingLoops[loop].generation != generation {
        return;
      }
      var gate := registry.stoppingLoops[loop];
      if gate.refs <= 1 {
        registry.stoppingLoops := registry.stoppingLoops - {loop};
      } else {
        registry.stoppingLoops := registry.stoppingLoops[loop := gate.(refs := gate.refs - 1)];
      }
    }
  }
}
