/** Queue items as the listings of loops read them: whose they are, and whether they are still to be worked on. */
module QueueItems {
  import opened Wrappers

  datatype QueueItem = QueueItem(loopId: Option<string>, live: bool)

  predicate HasLiveItem(queue: seq<QueueItem>, id: string) {
    exists i :: 0 <= i < |queue| && queue[i].loopId == Some(id) && queue[i].live
  }

  /** queuedLoopIDs: the loops with a live queue item. */
  method QueuedIds(queue: seq<QueueItem>) returns (queued: set<string>)
    ensures forall id :: id in queued <==> HasLiveItem(queue, id)
  {
    queued := {};
    for n := 0 to |queue|
      invariant forall id :: id in queued <==> exists i :: 0 <= i < n && queue[i].loopId == Some(id) && queue[i].live
    {
      if queue[n].loopId.Some? && queue[n].live {
        queued := queued + {queue[n].loopId.value};
      }
    }
  }
}
