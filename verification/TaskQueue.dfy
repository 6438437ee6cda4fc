/** The FIFO queues of tasks, threaded in place through the `next` fields of the task pool. */
module TaskQueue {
  import opened Tasks
  import opened SchedInvariant

  /** A `next` field, a head or a tail as a value: the slot it points to, -1 for null. */
  type Ref = n: int | -1 <= n <= IDLE

  type Links = l: seq<Ref> | |l| == MAX_TASKS + 1 witness seq(MAX_TASKS + 1, i => -1)

  function First(items: seq<Slot>): Ref { if items == [] then -1 else items[0] }

  function Last(items: seq<Slot>): Ref { if items == [] then -1 else items[|items| - 1] }

  /** The links thread `items` in order and end in null: the list is acyclic. */
  ghost predicate Linked(links: Links, items: seq<Slot>) {
    forall k {:trigger links[items[k]]} :: 0 <= k < |items| ==> links[items[k]] == First(items[k + 1..])
  }

  function Appended(links: Links, items: seq<Slot>, i: Slot): Links {
    var cut := links[i := -1];
    if items == [] then cut else cut[items[|items| - 1] := i]
  }

  function Removed(links: Links, items: seq<Slot>): Links { if items == [] then links else links[items[0] := -1] }

  lemma AppendedLinked(links: Links, items: seq<Slot>, i: Slot)
    requires Linked(links, items) && NoDup(items) && i !in items
    ensures Linked(Appended(links, items, i), items + [i]) && NoDup(items + [i])
  {
  }

  lemma RemovedLinked(links: Links, items: seq<Slot>)
    requires Linked(links, items) && NoDup(items) && items != []
    ensures Linked(Removed(links, items), items[1..]) && NoDup(items[1..])
  {
  }

  ghost predicate Apart(a: seq<Slot>, b: seq<Slot>) { forall k :: 0 <= k < |a| ==> a[k] !in b }

  /** Other lists do not notice. */
  lemma AppendedApart(links: Links, items: seq<Slot>, i: Slot, l: seq<Slot>)
    requires Linked(links, l) && Apart(l, items) && i !in l
    ensures Linked(Appended(links, items, i), l)
  {
  }

  lemma RemovedApart(links: Links, items: seq<Slot>, l: seq<Slot>)
    requires Linked(links, l) && Apart(l, items)
    ensures Linked(Removed(links, items), l)
  {
  }

  /** `queue_t` */
  class Queue {
    var head: Ref
    var tail: Ref

    constructor ()
      ensures Holds([])
    {
      head, tail := -1, -1;
    }

    ghost predicate Holds(items: seq<Slot>)
      reads this
    {
      head == First(items) && tail == Last(items)
    }

    /** `task_enqueue` */
    method Enqueue(next: array<Ref>, t: Slot, ghost items: seq<Slot>)
      requires next.Length == MAX_TASKS + 1 && Holds(items)
      modifies this, next
      ensures Holds(items + [t]) && next[..] == Appended(old(next[..]), items, t)
    {
      next[t] := -1;
      if tail == -1 {
        head, tail := t, t;
      } else {
        next[tail] := t;
        tail := t;
      }
    }

    /** `task_dequeue`; -1 is the null pointer. */
    method Dequeue(next: array<Ref>, ghost items: seq<Slot>) returns (t: Ref)
      requires next.Length == MAX_TASKS + 1 && Holds(items) && Linked(next[..], items)
      modifies this, next
      ensures t == First(items) && next[..] == Removed(old(next[..]), items)
      ensures Holds(if items == [] then [] else items[1..])
    {
      if head == -1 {
        return -1;
      }
      t := head;
      assert next[..][items[0]] == First(items[1..]);
      head := next[head];
      if head == -1 {
        tail := -1;
      }
      next[t] := -1;
    }
  }
}
