/** The prepend-only singly linked list of src/cical_list.c and its value
    iterators. The node chain hanging off `head` is modelled by the sequence
    of the nodes' data, head first. */
module CicalList {

  /** struct list: the data of the node chain from head to tail. */
  class List<T> {
    var chain: seq<T>

    /** list_create: a list whose head is null. */
    constructor ()
      ensures chain == []
    {
      chain := [];
    }

    /** list_add: a new node becomes the head, so the list is [x] + old. */
    method Add(x: T)
      modifies this
      ensures chain == [x] + old(chain)
      ensures forall i :: 0 <= i < |old(chain)| ==> chain[i + 1] == old(chain)[i]
    {
      chain := [x] + chain;
    }
  }

  /** list_destroy: unlinks the nodes one by one from the head and hands the
      data of each to the destructor when there is one. `destroyed` is the
      sequence of destructor calls, in the order they are made. */
  method Destroy<T>(l: List?<T>, hasDestructor: bool) returns (destroyed: seq<T>)
    modifies l
    ensures l == null ==> destroyed == []
    ensures l != null ==> l.chain == []
    ensures l != null ==> destroyed == if hasDestructor then old(l.chain) else []
  {
    destroyed := [];
    if l == null {
      return;
    }
    ghost var unlinked: seq<T> := [];
    while l.chain != []
      invariant old(l.chain) == unlinked + l.chain
      invariant destroyed == if hasDestructor then unlinked else []
      decreases |l.chain|
    {
      var n := l.chain[0];
      l.chain := l.chain[1..];
      unlinked := unlinked + [n];
      if hasDestructor {
        destroyed := destroyed + [n];
      }
    }
  }

  /** An iterator is a copy of a list header: the chain still to visit. */
  datatype Iterator<T> = Iterator(head: seq<T>)

  /** new_iterator: an iterator at the list's head. */
  function NewIterator<T>(l: List<T>): Iterator<T>
    reads l
  {
    Iterator(l.chain)
  }

  /** end: the iterator's head is null. */
  predicate End<T>(it: Iterator<T>) {
    it.head == []
  }

  /** next: one step along the chain; an ended iterator stays ended. */
  function Next<T>(it: Iterator<T>): Iterator<T> {
    if End(it) then it else Iterator(it.head[1..])
  }

  /** current: the data of the head node; the head must not be null. */
  function Current<T>(it: Iterator<T>): T
    requires !End(it)
  {
    it.head[0]
  }

  /** The elements an ITERATE loop visits, in order. */
  function Visits<T>(it: Iterator<T>): seq<T>
    decreases |it.head|
  {
    if End(it) then [] else [Current(it)] + Visits(Next(it))
  }

  /** `next` never revives an ended iterator and shortens a live one by one. */
  lemma NextProgress<T>(it: Iterator<T>)
    ensures End(it) ==> End(Next(it))
    ensures !End(it) ==> |Next(it).head| == |it.head| - 1
  {
  }

  /** An ITERATE loop visits every element once, head to tail. */
  lemma {:induction false} VisitsAll<T>(it: Iterator<T>)
    ensures Visits(it) == it.head
    decreases |it.head|
  {
    if !End(it) {
      VisitsAll(Next(it));
    }
  }

  /** Iterating from a prepended list meets the new element first, then the
      old elements in their old order. */
  lemma VisitsAfterAdd<T>(x: T, old_chain: seq<T>)
    ensures Visits(Iterator([x] + old_chain)) == [x] + old_chain
  {
    VisitsAll(Iterator([x] + old_chain));
  }

  /** The ITERATE(L, X) loop of include/cical_list.h, collecting each
      `current` in turn; the list is only read. */
  method Iterate<T>(l: List<T>) returns (visited: seq<T>)
    ensures visited == l.chain
  {
    visited := [];
    var it := NewIterator(l);
    while !End(it)
      invariant visited + it.head == l.chain
      decreases |it.head|
    {
      visited := visited + [Current(it)];
      it := Next(it);
    }
  }
}
