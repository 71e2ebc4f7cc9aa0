/** The ring queue of benchmarks/c/channel_pipeline.c. One call of a method below is one
    pass through a critical section: from acquiring the mutex to releasing it, either by
    unlocking or by waiting on a condition variable. */
module BoundedQueue {
  import opened Sequences

  /** The abstract value of a queue. */
  datatype Fifo<T> = Fifo(items: seq<T>, capacity: nat, sealed: bool)

  datatype SendOutcome<T> = SendBlocks | SendRefused | Sent(after: Fifo<T>)

  datatype RecvOutcome<T> = RecvBlocks | RecvClosed | Received(value: T, after: Fifo<T>)

  function TrySend<T>(q: Fifo<T>, value: T): SendOutcome<T> {
    if q.sealed then SendRefused
    else if |q.items| == q.capacity then SendBlocks
    else Sent(q.(items := q.items + [value]))
  }

  function TryRecv<T>(q: Fifo<T>): RecvOutcome<T> {
    if |q.items| > 0 then Received(q.items[0], q.(items := q.items[1..]))
    else if q.sealed then RecvClosed
    else RecvBlocks
  }

  // ---------- First in, first out

  datatype Operation<T> = Put(value: T) | Get

  /** A queue, what it has accepted and what it has delivered, after some operations. One that
      blocks or is refused changes nothing. */
  datatype History<T> = History(queue: Fifo<T>, accepted: seq<T>, delivered: seq<T>)

  function Performed<T>(q: Fifo<T>, operations: seq<Operation<T>>): History<T> {
    if operations == [] then History(q, [], [])
    else
      var n := |operations| - 1;
      var h := Performed(q, operations[..n]);
      match operations[n]
      case Put(value) =>
        (match TrySend(h.queue, value)
         case Sent(after) => History(after, h.accepted + [value], h.delivered)
         case _ => h)
      case Get =>
        match TryRecv(h.queue)
        case Received(value, after) => History(after, h.accepted, h.delivered + [value])
        case _ => h
  }

  /** Over any sequence of sends and receives: what was delivered, followed by what is still
      queued, is what was queued at first, followed by what was accepted, in order. */
  lemma {:induction false} FirstInFirstOut<T>(q: Fifo<T>, operations: seq<Operation<T>>)
    requires |q.items| <= q.capacity
    ensures var h := Performed(q, operations);
            && h.delivered + h.queue.items == q.items + h.accepted
            && |h.queue.items| <= h.queue.capacity == q.capacity && h.queue.sealed == q.sealed
            && (q.sealed ==> h.accepted == [])
  {
    if operations != [] {
      var n := |operations| - 1;
      var h := Performed(q, operations[..n]);
      FirstInFirstOut(q, operations[..n]);
      if operations[n].Put? {
        Associative(h.delivered, h.queue.items, [operations[n].value]);
        Associative(q.items, h.accepted, [operations[n].value]);
      } else if h.queue.items != [] {
        assert h.queue.items == [h.queue.items[0]] + h.queue.items[1..];
        Associative(h.delivered, [h.queue.items[0]], h.queue.items[1..]);
      }
    }
  }

  // ---------- The ring

  /** Advancing a ring position by one. */
  lemma Wraps(i: nat, n: nat)
    requires i < n
    ensures (i + 1) % n == if i + 1 < n then i + 1 else 0
  {
  }

  class Queue<T(0)> {
    const values: array<T>
    var head: nat
    var tail: nat
    var count: nat
    var sealed: bool
    /** All values accepted and all delivered so far. */
    ghost var accepted: seq<T>
    ghost var delivered: seq<T>

    /** The values delivered, followed by those in the ring, are the values accepted. */
    ghost predicate Valid()
      reads this, values
    {
      Ring() && delivered + Contents() == accepted
    }

    ghost predicate Ring()
      reads this
    {
      && 0 < values.Length
      && head < values.Length
      && count <= values.Length
      && tail == Slot(count)
    }

    /** The ring position of the `i`-th oldest item. */
    ghost function Slot(i: nat): nat
      reads this
    {
      if head + i < values.Length then head + i else head + i - values.Length
    }

    ghost function Contents(): (s: seq<T>)
      requires Ring()
      reads this, values
      ensures |s| == count
    {
      seq(count, i requires 0 <= i < count && Ring() reads this, values => values[Slot(i)])
    }

    ghost function View(): Fifo<T>
      requires Valid()
      reads this, values
    {
      Fifo(Contents(), values.Length, sealed)
    }

    constructor (capacity: nat)
      requires 0 < capacity
      ensures Valid() && fresh(values)
      ensures View() == Fifo([], capacity, false) && accepted == delivered == []
    {
      values := new T[capacity];
      head, tail, count, sealed := 0, 0, 0, false;
      accepted, delivered := [], [];
    }

    method Seal()
      requires Valid()
      modifies this
      ensures Valid()
      ensures View() == old(View()).(sealed := true)
      ensures accepted == old(accepted) && delivered == old(delivered)
    {
      sealed := true;
    }

    method Send(value: T) returns (blocks: bool, sent: bool)
      requires Valid()
      modifies this, values
      ensures Valid()
      ensures match old(TrySend(View(), value))
              case SendBlocks => blocks && !sent && View() == old(View())
              case SendRefused => !blocks && !sent && View() == old(View())
              case Sent(after) => !blocks && sent && View() == after
      ensures accepted == old(accepted) + (if sent then [value] else []) && delivered == old(delivered)
    {
      if !sealed && count == values.Length {
        return true, false;
      }
      if sealed {
        return false, false;
      }
      ghost var before := Contents();
      Wraps(tail, values.Length);
      values[tail] := value;
      tail := (tail + 1) % values.Length;
      count := count + 1;
      accepted := accepted + [value];
      assert Contents() == before + [value];
      return false, true;
    }

    method Recv() returns (blocks: bool, received: bool, value: T)
      requires Valid()
      modifies this
      ensures Valid()
      ensures match old(TryRecv(View()))
              case RecvBlocks => blocks && !received && View() == old(View())
              case RecvClosed => !blocks && !received && View() == old(View())
              case Received(v, after) => !blocks && received && value == v && View() == after
      ensures delivered == old(delivered) + (if received then [value] else []) && accepted == old(accepted)
    {
      value := *;
      if !sealed && count == 0 {
        return true, false, value;
      }
      if count == 0 && sealed {
        return false, false, value;
      }
      ghost var before := Contents();
      Wraps(head, values.Length);
      value := values[head];
      head := (head + 1) % values.Length;
      count := count - 1;
      delivered := delivered + [value];
      assert Contents() == before[1..];
      assert before == [value] + before[1..];
      Associative(old(delivered), [value], before[1..]);
      return false, true, value;
    }
  }
}
