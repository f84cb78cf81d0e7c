/** The work queue both transforms drive their propagation with.
    Only the interface the transforms use is modelled: `push` adds a
    (cell, priority) entry, `pop` removes and returns the cell of SOME
    pending entry, `distance` reports the priority of the entry popped
    last, and `empty` tells whether anything is pending. The bucket
    layout and the order in which entries come out are not modelled,
    so every property proved of the transforms holds whatever that
    order is. */
module Queue {
  import opened Utils

  datatype Entry = Entry(cell: Cell, priority: nat)

  class WorkQueue {
    /** The entries pushed and not yet popped. */
    var pending: multiset<Entry>
    /** The priority of the entry returned by the last `Pop`. */
    var distance: nat

    constructor ()
      ensures pending == multiset{} && distance == 0
    {
      pending := multiset{};
      distance := 0;
    }

    /** Nothing is pending. */
    predicate Empty(): (b: bool)
      reads this
      ensures b <==> forall e :: e !in pending
    {
      pending == multiset{}
    }

    method Push(cell: Cell, priority: nat)
      modifies this
      ensures pending == old(pending) + multiset{Entry(cell, priority)}
      ensures distance == old(distance)
    {
      pending := pending + multiset{Entry(cell, priority)};
    }

    /** Popping from an empty queue is a caller error, hence the requires. */
    method Pop() returns (cell: Cell)
      requires pending != multiset{}
      modifies this
      ensures Entry(cell, distance) in old(pending)
      ensures pending == old(pending) - multiset{Entry(cell, distance)}
      ensures |pending| == |old(pending)| - 1
    {
      var e :| e in pending;
      pending := pending - multiset{e};
      cell, distance := e.cell, e.priority;
    }
  }
}
