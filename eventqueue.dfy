// The model-event FIFO that model containers and model items post to and
// the environment's frame loop drains.
module Events {
  import opened Wrappers
  import opened ValueKey

  datatype EventType =
    | ModelItemSet
    | ModelStateSet
    | ModelStateUnset
    | TriggerCalled
    | ModelItemAdded
    | ModelItemRemoved
    | ModelOrderInvalidated
    | ModelItemsSwapped

  /** `ModelEvent`; containers and model items are handles, `None` a null pointer. */
  datatype ModelEvent = ModelEvent(
    kind: EventType,
    container: Option<nat>,
    modelItem: Option<nat>,
    modelItem2: Option<nat>,
    modelKey: KeyPath,
    stateKey: StateKey)

  /** An event carrying only its type and the container and items it names. */
  function ContainerEvent(kind: EventType, container: Option<nat>, item: Option<nat>, item2: Option<nat>): (e: ModelEvent)
    ensures e.kind == kind && e.container == container && e.modelItem == item && e.modelItem2 == item2
    ensures e.modelKey == [] && e.stateKey == StateKey("", None)
  {
    ModelEvent(kind, container, item, item2, [], StateKey("", None))
  }

  /** `EventQueue`: a `std::queue<ModelEvent>`, front first. */
  class EventQueue {
    var contents: seq<ModelEvent>

    constructor()
      ensures contents == []
    {
      contents := [];
    }

    /** `pushEvent`: appends at the back, leaving earlier events alone. */
    method PushEvent(e: ModelEvent)
      modifies this
      ensures contents == old(contents) + [e]
    {
      contents := contents + [e];
    }

    /** `hasEvent`. */
    function HasEvent(): (b: bool)
      reads this
      ensures b <==> |contents| > 0
    {
      contents != []
    }

    /** `popEvent`: the oldest event, removed; the queue must not be empty. */
    method PopEvent() returns (e: ModelEvent)
      requires HasEvent()
      modifies this
      ensures [e] + contents == old(contents)
    {
      e := contents[0];
      contents := contents[1..];
    }

    /** The frame loop's `while(hasEvent()) popEvent()`: hands out every
        queued event, oldest first, and leaves the queue empty. */
    method Drain() returns (handled: seq<ModelEvent>)
      modifies this
      ensures handled == old(contents) && contents == []
    {
      handled := [];
      while HasEvent()
        invariant handled + contents == old(contents)
        decreases |contents|
      {
        var e := PopEvent();
        handled := handled + [e];
      }
    }
  }

  /** Events come out in the order they went in: pushing `a` then `b` on any
      queue and draining it yields the earlier events, `a`, then `b`. */
  method PushPushDrain(q: EventQueue, a: ModelEvent, b: ModelEvent) returns (out: seq<ModelEvent>)
    modifies q
    ensures out == old(q.contents) + [a, b] && q.contents == []
  {
    q.PushEvent(a);
    q.PushEvent(b);
    out := q.Drain();
  }
}
