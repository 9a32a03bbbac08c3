/**
 * The 3-D coin previews' shared resources: a bounded set of live rendering
 * contexts, a one-at-a-time screenshot queue for the previews that did not
 * get a context, and the per-preview mode decision on mount and unmount.
 * Rendering, capture and the release delay timer are outside the model; the
 * delayed start after `complete` is the separate step `ProcessNext`.
 */
module CoinPreview {
  import opened Wrappers
  import opened Seqs
  import opened Text

  const MaxContexts: nat := 6

  /** The live rendering contexts, by preview id. */
  class ContextManager {
    var activeIds: set<string>

    predicate Valid()
      reads this
    {
      |activeIds| <= MaxContexts
    }

    constructor ()
      ensures activeIds == {} && Valid()
    {
      activeIds := {};
    }

    /** Takes a context while fewer than six are live. */
    method Register(id: string) returns (ok: bool)
      requires Valid()
      modifies this
      ensures Valid()
      ensures ok <==> |old(activeIds)| < MaxContexts
      ensures ok ==> activeIds == old(activeIds) + {id}
      ensures !ok ==> activeIds == old(activeIds)
    {
      if |activeIds| < MaxContexts {
        activeIds := activeIds + {id};
        ok := true;
      } else {
        ok := false;
      }
    }

    method Unregister(id: string)
      requires Valid()
      modifies this
      ensures Valid()
      ensures activeIds == old(activeIds) - {id}
    {
      activeIds := activeIds - {id};
    }

    /** Run when the gallery is left. */
    method Reset()
      modifies this
      ensures Valid()
      ensures activeIds == {}
    {
      activeIds := {};
    }
  }

  /** Previews waiting for the single screenshot slot. Each entry's callback
      switches its own preview to screenshot mode, so an entry is its id;
      `started` records, in order, the entries whose callback has run. */
  class ScreenshotQueue {
    var queue: seq<string>
    var isProcessing: bool
    var currentId: Option<string>
    var started: seq<string>

    /** The slot is taken exactly when some preview holds it, and the holder
        is the entry whose callback ran last. */
    predicate Valid()
      reads this
    {
      && (isProcessing <==> currentId.Some?)
      && (currentId.Some? ==> started != [] && started[|started| - 1] == currentId.value)
    }

    constructor ()
      ensures queue == [] && !isProcessing && currentId == None && started == [] && Valid()
    {
      queue := [];
      isProcessing := false;
      currentId := None;
      started := [];
    }

    /** Starts the head entry when the slot is free. */
    method ProcessNext()
      requires Valid()
      modifies this
      ensures Valid()
      ensures old(isProcessing) || old(queue) == [] ==>
        queue == old(queue) && isProcessing == old(isProcessing) &&
        currentId == old(currentId) && started == old(started)
      ensures !old(isProcessing) && old(queue) != [] ==>
        && queue == old(queue)[1..]
        && isProcessing && currentId == Some(old(queue)[0])
        && started == old(started) + [old(queue)[0]]
    {
      if isProcessing || queue == [] {
        return;
      }
      var next := queue[0];
      queue := queue[1..];
      isProcessing := true;
      currentId := Some(next);
      started := started + [next];
    }

    /** Appends at the tail, then starts the head if the slot is free. */
    method Enqueue(id: string)
      requires Valid()
      modifies this
      ensures Valid()
      ensures old(isProcessing) ==>
        queue == old(queue) + [id] && currentId == old(currentId) && started == old(started)
      ensures !old(isProcessing) ==>
        var q := old(queue) + [id];
        queue == q[1..] && currentId == Some(q[0]) && started == old(started) + [q[0]]
      ensures isProcessing
    {
      queue := queue + [id];
      ProcessNext();
    }

    /** Drops every waiting entry for the id; when the id holds the slot, frees
        it and starts the next entry at once. */
    method Dequeue(id: string)
      requires Valid()
      modifies this
      ensures Valid()
      ensures old(currentId) != Some(id) ==>
        queue == Filter(old(queue), (x: string) => x != id) &&
        currentId == old(currentId) && isProcessing == old(isProcessing) && started == old(started)
      ensures old(currentId) == Some(id) ==>
        var q := Filter(old(queue), (x: string) => x != id);
        && (q == [] ==> queue == [] && currentId == None && started == old(started))
        && (q != [] ==> queue == q[1..] && currentId == Some(q[0]) && started == old(started) + [q[0]])
      ensures id !in queue
    {
      queue := Filter(queue, (x: string) => x != id);
      if currentId == Some(id) {
        currentId := None;
        isProcessing := false;
        ProcessNext();
      }
    }

    /** Frees the slot when the id holds it; the next entry starts later. */
    method Complete(id: string)
      requires Valid()
      modifies this
      ensures Valid()
      ensures queue == old(queue) && started == old(started)
      ensures old(currentId) == Some(id) ==> currentId == None && !isProcessing
      ensures old(currentId) != Some(id) ==> currentId == old(currentId) && isProcessing == old(isProcessing)
    {
      if currentId == Some(id) {
        currentId := None;
        isProcessing := false;
      }
    }

    /** Only the slot holder may draw its screenshot canvas. */
    function CanRender(id: string): (b: bool)
      reads this
      ensures b <==> currentId == Some(id)
    {
      currentId == Some(id)
    }
  }

  /** At most one preview may render at a time, and it is the one the queue
      started last: a preview renders only after its own callback ran. */
  lemma OneRendererAtATime(q: ScreenshotQueue, a: string, b: string)
    requires q.Valid() && q.CanRender(a) && q.CanRender(b)
    ensures a == b
    ensures q.started != [] && q.started[|q.started| - 1] == a
  {
  }

  datatype Mode = Checking | Animated | Queued | Screenshot | Static

  /** `coinFile && coinFile.trim() !== ''`. */
  predicate HasValidFile(coinFile: Option<string>) {
    coinFile.Some? && Trim(coinFile.value) != ""
  }

  /** One preview: its id, display mode, whether it holds a context, and its captured image. */
  class Preview {
    const instanceId: string
    var mode: Mode
    var registered: bool
    var screenshot: Option<string>

    constructor (instanceId: string)
      ensures this.instanceId == instanceId && mode == Checking && !registered && screenshot == None
    {
      this.instanceId := instanceId;
      mode := Checking;
      registered := false;
      screenshot := None;
    }

    /** The mount effect: static without a file; animated when a context is
        free; otherwise queued, and screenshot at once if the slot was free. */
    method Mount(coinFile: Option<string>, contexts: ContextManager, shots: ScreenshotQueue)
      requires contexts.Valid() && shots.Valid()
      modifies this, contexts, shots
      ensures contexts.Valid() && shots.Valid()
      ensures !HasValidFile(coinFile) ==>
        mode == Static && registered == old(registered) &&
        contexts.activeIds == old(contexts.activeIds) && shots.queue == old(shots.queue) &&
        shots.currentId == old(shots.currentId) && shots.started == old(shots.started)
      ensures HasValidFile(coinFile) && |old(contexts.activeIds)| < MaxContexts ==>
        mode == Animated && registered && contexts.activeIds == old(contexts.activeIds) + {instanceId} &&
        shots.queue == old(shots.queue) && shots.currentId == old(shots.currentId) && shots.started == old(shots.started)
      ensures HasValidFile(coinFile) && |old(contexts.activeIds)| >= MaxContexts ==>
        && contexts.activeIds == old(contexts.activeIds)
        && registered == old(registered)
        && (old(shots.isProcessing) ==>
              && mode == Queued && shots.queue == old(shots.queue) + [instanceId]
              && shots.currentId == old(shots.currentId) && shots.started == old(shots.started))
        && (!old(shots.isProcessing) ==>
              && shots.currentId == Some((old(shots.queue) + [instanceId])[0])
              && shots.queue == (old(shots.queue) + [instanceId])[1..]
              && shots.started == old(shots.started) + [(old(shots.queue) + [instanceId])[0]])
        && shots.isProcessing
        && (mode == Queued || mode == Screenshot)
        && (mode == Screenshot <==> !old(shots.isProcessing) && (old(shots.queue) + [instanceId])[0] == instanceId)
      ensures screenshot == old(screenshot)
    {
      if !HasValidFile(coinFile) {
        mode := Static;
        return;
      }
      var ok := contexts.Register(instanceId);
      if ok {
        registered := true;
        mode := Animated;
      } else {
        mode := Queued;
        var wasProcessing := shots.isProcessing;
        shots.Enqueue(instanceId);
        if !wasProcessing && shots.currentId == Some(instanceId) {
          mode := Screenshot;
        }
      }
    }

    /** The queue reached this preview's entry later: its callback runs. */
    method QueueStarted()
      modifies this
      ensures mode == Screenshot && registered == old(registered) && screenshot == old(screenshot)
    {
      mode := Screenshot;
    }

    /** The effect cleanup: give back the context if held and leave the queue. */
    method Unmount(contexts: ContextManager, shots: ScreenshotQueue)
      requires contexts.Valid() && shots.Valid()
      modifies this, contexts, shots
      ensures contexts.Valid() && shots.Valid()
      ensures !registered && mode == old(mode) && screenshot == old(screenshot)
      ensures old(registered) ==> contexts.activeIds == old(contexts.activeIds) - {instanceId}
      ensures !old(registered) ==> contexts.activeIds == old(contexts.activeIds)
      ensures old(shots.currentId) != Some(instanceId) ==>
        shots.queue == Filter(old(shots.queue), (x: string) => x != instanceId) &&
        shots.currentId == old(shots.currentId) && shots.isProcessing == old(shots.isProcessing) &&
        shots.started == old(shots.started)
      ensures old(shots.currentId) == Some(instanceId) ==>
        var q := Filter(old(shots.queue), (x: string) => x != instanceId);
        && (q == [] ==> shots.queue == [] && shots.currentId == None && shots.started == old(shots.started))
        && (q != [] ==> shots.queue == q[1..] && shots.currentId == Some(q[0]) &&
                        shots.started == old(shots.started) + [q[0]])
      ensures instanceId !in shots.queue && shots.currentId != Some(instanceId)
    {
      if registered {
        contexts.Unregister(instanceId);
        registered := false;
      }
      shots.Dequeue(instanceId);
    }

    /** A capture finished: the slot is released and the preview shows the
        image, if one was taken, statically. */
    method HandleScreenshot(dataUrl: Option<string>, shots: ScreenshotQueue)
      requires shots.Valid()
      modifies this, shots
      ensures shots.Valid()
      ensures mode == Static && registered == old(registered)
      ensures dataUrl.Some? && dataUrl.value != "" ==> screenshot == dataUrl
      ensures !(dataUrl.Some? && dataUrl.value != "") ==> screenshot == old(screenshot)
      ensures shots.currentId != Some(instanceId)
      ensures shots.queue == old(shots.queue) && shots.started == old(shots.started)
      ensures old(shots.currentId) == Some(instanceId) ==> shots.currentId == None && !shots.isProcessing
      ensures old(shots.currentId) != Some(instanceId) ==>
        shots.currentId == old(shots.currentId) && shots.isProcessing == old(shots.isProcessing)
    {
      shots.Complete(instanceId);
      if dataUrl.Some? && dataUrl.value != "" {
        screenshot := dataUrl;
      }
      mode := Static;
    }
  }
}
