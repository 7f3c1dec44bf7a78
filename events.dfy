// The in-process event bus: a registry of handlers per event type, with
// emit calling them in registration order and swallowing their exceptions.
// Two separate instances exist: the files observer, which the facades emit
// on, and the event manager, which the logging subscriber listens on.
module Events {
  import opened Wrappers
  import opened Models

  datatype EventType =
    | FileUploaded | FileDownloaded | FileRenamed | FileMoved | FileDeleted
    | FolderCreated | FolderRenamed | FolderMoved | FolderDeleted

  /** The payloads: a record (null when an update found none), or the
    * `{ fileId, ownerId }` / `{ folderId, ownerId }` objects. */
  datatype EventData =
    | RecordData(record: Option<Node>)
    | FileRef(fileId: Id, ownerId: Id)
    | FolderRef(folderId: Id, ownerId: Id)

  /** A handler function, identified as `!==` compares functions: by identity. */
  type HandlerId = nat

  /** One call of a handler, and whether it threw. */
  datatype Delivery = Delivery(handler: HandlerId, event: EventType, data: EventData, threw: bool)

  /** `handlers.filter((h) => h !== handler)`. */
  function Without(hs: seq<HandlerId>, h: HandlerId): (r: seq<HandlerId>)
    ensures forall x :: x in r <==> x in hs && x != h
  {
    if hs == [] then []
    else if hs[0] == h then Without(hs[1..], h)
    else [hs[0]] + Without(hs[1..], h)
  }

  /** Removing a handler drops all of its registrations and keeps every
    * other registration, duplicates included. */
  lemma {:induction false} WithoutCounts(hs: seq<HandlerId>, h: HandlerId)
    ensures multiset(Without(hs, h)) == multiset(hs)[h := 0]
  {
    if hs != [] {
      WithoutCounts(hs[1..], h);
      assert hs == [hs[0]] + hs[1..];
    }
  }

  class EventBus {
    var listeners: map<EventType, seq<HandlerId>>
    /** Every handler call made so far, in order. */
    var deliveries: seq<Delivery>
    /** Every emit so far, whether or not anybody listened. */
    ghost var emitted: seq<(EventType, EventData)>
    /** Whether a handler throws on a payload; what else handlers do is
      * outside this model. */
    const throws: (HandlerId, EventType, EventData) -> bool

    constructor (throws: (HandlerId, EventType, EventData) -> bool)
      ensures this.throws == throws
      ensures listeners == map[] && deliveries == [] && emitted == []
    {
      this.throws := throws;
      listeners := map[];
      deliveries := [];
      emitted := [];
    }

    /** The calls emit makes for a list of handlers. */
    function Calls(hs: seq<HandlerId>, event: EventType, data: EventData): (r: seq<Delivery>)
      ensures |r| == |hs|
      ensures forall i :: 0 <= i < |hs| ==>
        r[i].handler == hs[i] && r[i].event == event && r[i].data == data
        && r[i].threw == throws(hs[i], event, data)
    {
      seq(|hs|, i requires 0 <= i < |hs| => Delivery(hs[i], event, data, throws(hs[i], event, data)))
    }

    /** `on`: append, creating the list if absent; duplicates are kept. */
    method On(event: EventType, h: HandlerId)
      modifies this`listeners
      ensures listeners == old(listeners)[event :=
        (if event in old(listeners) then old(listeners)[event] else []) + [h]]
    {
      var hs := if event in listeners then listeners[event] else [];
      listeners := listeners[event := hs + [h]];
    }

    /** `off`: remove every registration of h for this event only; nothing
      * happens for an event that has no list. */
    method Off(event: EventType, h: HandlerId)
      modifies this`listeners
      ensures event !in old(listeners) ==> listeners == old(listeners)
      ensures event in old(listeners) ==>
        listeners == old(listeners)[event := Without(old(listeners)[event], h)]
    {
      if event !in listeners {
        return;
      }
      listeners := listeners[event := Without(listeners[event], h)];
    }

    /** `emit`: every handler registered for the event is called with the
      * same data, in order; one that throws is logged and the rest still
      * run, and emit itself never fails. */
    method Emit(event: EventType, data: EventData)
      modifies this`deliveries, this`emitted
      ensures emitted == old(emitted) + [(event, data)]
      ensures event !in listeners ==> deliveries == old(deliveries)
      ensures event in listeners ==> deliveries == old(deliveries) + Calls(listeners[event], event, data)
    {
      emitted := emitted + [(event, data)];
      if event !in listeners {
        return;
      }
      var hs := listeners[event];
      var i := 0;
      while i < |hs|
        invariant 0 <= i <= |hs|
        invariant emitted == old(emitted) + [(event, data)]
        invariant deliveries == old(deliveries) + Calls(hs[..i], event, data)
      {
        var threw := throws(hs[i], event, data);
        deliveries := deliveries + [Delivery(hs[i], event, data, threw)];
        assert hs[..i + 1] == hs[..i] + [hs[i]];
        i := i + 1;
      }
      assert hs[..i] == hs;
    }
  }

  /** The module-level singletons (`getInstance` over a lazily set static
    * field), one per bus class. */
  class Buses {
    var filesObserver: EventBus?
    var eventManager: EventBus?
    const throws: (HandlerId, EventType, EventData) -> bool

    constructor (throws: (HandlerId, EventType, EventData) -> bool)
      ensures this.throws == throws && filesObserver == null && eventManager == null
    {
      this.throws := throws;
      filesObserver := null;
      eventManager := null;
    }

    method FilesObserver() returns (b: EventBus)
      modifies this`filesObserver
      ensures old(filesObserver) != null ==> b == old(filesObserver)
      ensures old(filesObserver) == null ==> fresh(b) && b.listeners == map[] && b.deliveries == []
      ensures filesObserver == b
    {
      if filesObserver == null {
        filesObserver := new EventBus(throws);
      }
      b := filesObserver;
    }

    method EventManager() returns (b: EventBus)
      modifies this`eventManager
      ensures old(eventManager) != null ==> b == old(eventManager)
      ensures old(eventManager) == null ==> fresh(b) && b.listeners == map[] && b.deliveries == []
      ensures eventManager == b
    {
      if eventManager == null {
        eventManager := new EventBus(throws);
      }
      b := eventManager;
    }
  }

  /** The event types the logging subscriber listens to: all of them. */
  const Logged: seq<EventType> := [FileUploaded, FileDownloaded, FileRenamed, FileMoved, FileDeleted,
                                   FolderCreated, FolderRenamed, FolderMoved, FolderDeleted]

  /** Each event type is logged once. */
  lemma LoggedDistinct()
    ensures forall i, j :: 0 <= i < j < |Logged| ==> Logged[i] != Logged[j]
  {
  }

  /** If the logging subscriber is started (nothing in the server calls its
    * `init`), it registers one handler per event type on the event manager,
    * while the facades emit on the files observer. The two singletons are distinct and the observer gains no
    * listener, so a facade emit reaches no handler. */
  method StartUp(buses: Buses, logHandlers: seq<HandlerId>)
    returns (observer: EventBus, manager: EventBus)
    requires buses.filesObserver == null && buses.eventManager == null
    requires |logHandlers| == |Logged|
    modifies buses
    ensures observer != manager
    ensures observer.listeners == map[] && observer.deliveries == []
    ensures forall i :: 0 <= i < |Logged| ==>
      Logged[i] in manager.listeners && manager.listeners[Logged[i]] == [logHandlers[i]]
  {
    manager := buses.EventManager();
    LoggedDistinct();
    var i := 0;
    while i < |Logged|
      invariant 0 <= i <= |Logged|
      invariant manager.listeners.Keys == set j | 0 <= j < i :: Logged[j]
      invariant forall j :: 0 <= j < i ==> Logged[j] in manager.listeners && manager.listeners[Logged[j]] == [logHandlers[j]]
      invariant fresh(manager) && buses.filesObserver == null
      invariant manager.deliveries == []
      modifies manager`listeners
    {
      assert Logged[i] !in manager.listeners;
      manager.On(Logged[i], logHandlers[i]);
      i := i + 1;
    }
    observer := buses.FilesObserver();
  }
}
