/** The bounded queues of a session and the bank that holds them: scheduler/item.go, scheduler/queue.go. */
module Queues {
  import opened Wrappers
  import opened Bytes

  datatype Lane = Signal | Audio | Cursor | Video | File

  /** One value for each lane. */
  datatype PerLane<T> = PerLane(signal: T, audio: T, cursor: T, video: T, file: T) {
    function Get(l: Lane): T {
      match l
      case Signal => signal
      case Audio => audio
      case Cursor => cursor
      case Video => video
      case File => file
    }

    function Set(l: Lane, v: T): (r: PerLane<T>)
      ensures forall m: Lane :: r.Get(m) == if m == l then v else Get(m)
    {
      match l
      case Signal => this.(signal := v)
      case Audio => this.(audio := v)
      case Cursor => this.(cursor := v)
      case Video => this.(video := v)
      case File => this.(file := v)
    }
  }

  /** OnDrop callbacks are not modelled. */
  datatype Item = Item(channel: byte, priority: byte, seqNo: u64, pts: i64, payload: seq<byte>, reliable: bool) {
    function Size(): nat {
      |payload|
    }

    /** What a pick charges for the item. */
    function Cost(): (c: nat)
      ensures c >= 1
    {
      if |payload| < 1 then 1 else |payload|
    }

    /** bank.of: unknown channels share the file queue. */
    function Lane(): Lane {
      if channel == 0 then Signal
      else if channel == 1 then Audio
      else if channel == 2 then Cursor
      else if channel == 3 then Video
      else File
    }
  }

  datatype QueueState = QueueState(cap: nat, items: seq<Item>, drops: nat, enq: nat, deq: nat, bytes: nat) {
    predicate Empty() {
      items == []
    }

    function Enqueued(it: Item): (QueueState, bool) {
      if |items| >= cap then (this.(drops := drops + 1), false)
      else (this.(items := items + [it], enq := enq + 1, bytes := bytes + it.Size()), true)
    }

    /** The byte counter stops at zero. */
    function Dequeued(): QueueState
      requires !Empty()
    {
      this.(items := items[1..], deq := deq + 1,
            bytes := if bytes >= items[0].Size() then bytes - items[0].Size() else 0)
    }

    /** drainOnce putting a refused item back at the front: no counter moves. */
    function Returned(it: Item): QueueState {
      this.(items := [it] + items)
    }
  }

  function TotalSize(items: seq<Item>): nat
    decreases |items|
  {
    if items == [] then 0 else items[0].Size() + TotalSize(items[1..])
  }

  lemma {:induction false} TotalSizeAppend(items: seq<Item>, it: Item)
    ensures TotalSize(items + [it]) == TotalSize(items) + it.Size()
    decreases |items|
  {
    if items == [] {
      assert [it] + [] == [it];
    } else {
      TotalSizeAppend(items[1..], it);
      assert (items + [it])[1..] == items[1..] + [it];
    }
  }

  class Queue {
    const cap: nat
    var items: seq<Item>
    var drops: nat
    var enq: nat
    var deq: nat
    var bytes: nat

    function Value(): QueueState
      reads this
    {
      QueueState(cap, items, drops, enq, deq, bytes)
    }

    constructor (cap: int)
      ensures Value() == QueueState(if cap < 1 then 8 else cap, [], 0, 0, 0, 0)
    {
      this.cap := if cap < 1 then 8 else cap;
      items, drops, enq, deq, bytes := [], 0, 0, 0, 0;
    }

    method Enqueue(it: Item) returns (ok: bool)
      modifies this
      ensures (Value(), ok) == old(Value()).Enqueued(it)
    {
      if |items| >= cap {
        drops := drops + 1;
        return false;
      }
      items := items + [it];
      enq := enq + 1;
      bytes := bytes + it.Size();
      return true;
    }

    method Dequeue() returns (r: Option<Item>)
      modifies this
      ensures old(items) == [] ==> r == None && Value() == old(Value())
      ensures old(items) != [] ==> r == Some(old(items)[0]) && Value() == old(Value()).Dequeued()
    {
      if |items| == 0 {
        return None;
      }
      var it := items[0];
      items := items[1..];
      deq := deq + 1;
      if bytes >= it.Size() {
        bytes := bytes - it.Size();
      } else {
        bytes := 0;
      }
      return Some(it);
    }

    method PutFront(it: Item)
      modifies this
      ensures Value() == old(Value()).Returned(it)
    {
      items := [it] + items;
    }
  }
}
