/** Events and the storages that carry them. */
module EventTypes {
  import opened Basics

  datatype Priority = High | Medium | Low

  function Rank(p: Priority): (r: int)
    ensures 0 <= r <= 2
  {
    match p case High => 0 case Medium => 1 case Low => 2
  }

  /** The event proper; `dataPtr` is an address, 0 for NULL. */
  datatype Event = Event(
    receiver: I8, sender: I8, eventType: U8, eventId: U8, dataPtr: nat, priority: Priority, eventData: nat)

  datatype Allocator = StartupPool | Dynamic | User | Timer

  datatype Progress = Unqueued | Queued | Running

  /**
   A storage for one event. A timer struct embeds such a storage and adds a
   launch time and a period, so that either can be reached from the other; here
   both are one object, and storages outside timer structs leave the two fields alone.
   */
  class Storage {
    var data: Event
    var allocator: Allocator
    var state: Progress
    var launchTime: U32
    var period: U32

    constructor ()
      ensures allocator == StartupPool && state == Unqueued && launchTime == 0 && period == 0
      ensures data == Event(0, 0, 0, 0, 0, High, 0)
    {
      data := Event(0, 0, 0, 0, 0, High, 0);
      allocator := StartupPool;
      state := Unqueued;
      launchTime := 0;
      period := 0;
    }
  }

  /** A handler and its id. */
  datatype Tasklet = Tasklet(id: int, handler: nat)
}
