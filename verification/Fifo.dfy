/** TemplateFIFO: a singly linked queue with pointers to its first and last record. */
module Fifos {
  import opened Options

  class Record<T> {
    const data: T
    var next: Record?<T>

    constructor (data: T, next: Record?<T>)
      ensures this.data == data && this.next == next
    {
      this.data := data;
      this.next := next;
    }
  }

  /** Every record points to the one after it, and the last one to none. */
  ghost predicate Linked<T>(nodes: seq<Record<T>>)
    reads nodes
  {
    && (forall i :: 0 <= i < |nodes| - 1 ==> nodes[i].next == nodes[i + 1])
    && (nodes != [] ==> nodes[|nodes| - 1].next == null)
  }

  class Fifo<T> {
    var first: Record?<T>
    var last: Record?<T>
    ghost var nodes: seq<Record<T>>
    /** The queue, its records and the records it had. */
    ghost var Repr: set<object>

    ghost predicate Valid()
      reads this, Repr
    {
      && this in Repr && (forall i :: 0 <= i < |nodes| ==> nodes[i] in Repr)
      && first == (if nodes == [] then null else nodes[0])
      && last == (if nodes == [] then null else nodes[|nodes| - 1])
      && (forall i, j :: 0 <= i < j < |nodes| ==> nodes[i] != nodes[j])
      && Linked(nodes)
    }

    /** The queued values, first to come out first. */
    ghost function Contents(): (s: seq<T>)
      reads this
      ensures |s| == |nodes|
    {
      seq(|nodes|, i requires 0 <= i < |nodes| reads this => nodes[i].data)
    }

    constructor ()
      ensures Valid() && fresh(Repr) && this in Repr && nodes == []
    {
      first, last, nodes := null, null, [];
      Repr := {this};
    }

    method Push(data: T)
      requires Valid()
      modifies Repr
      ensures Valid() && this in Repr && old(Repr) <= Repr && fresh(Repr - old(Repr))
      ensures Contents() == old(Contents()) + [data]
    {
      var p := new Record(data, null);
      if last != null {
        last.next := p;
        last := p;
      } else {
        first, last := p, p;
      }
      nodes, Repr := nodes + [p], Repr + {p};
    }

    method PushOnTop(data: T)
      requires Valid()
      modifies Repr
      ensures Valid() && this in Repr && old(Repr) <= Repr && fresh(Repr - old(Repr))
      ensures Contents() == [data] + old(Contents())
    {
      var p := new Record(data, first);
      if first != null {
        first := p;
      } else {
        first, last := p, p;
      }
      nodes, Repr := [p] + nodes, Repr + {p};
    }

    /** Nothing comes out of an empty queue; otherwise its first value, whose record is dropped. */
    method Pop() returns (data: Option<T>)
      requires Valid()
      modifies Repr
      ensures Valid() && Repr == old(Repr)
      ensures data == if old(Contents()) == [] then None else Some(old(Contents())[0])
      ensures Contents() == if old(Contents()) == [] then [] else old(Contents())[1..]
    {
      if first == null {
        return None;
      }
      data := Some(first.data);
      var p := first;
      first := first.next;
      if first == null {
        last := null;
      }
      nodes := nodes[1..];
    }

    method Empty()
      requires Valid()
      modifies Repr
      ensures Valid() && Repr == old(Repr) && Contents() == []
    {
      while first != null
        invariant Repr == old(Repr) && this in Repr && forall i :: 0 <= i < |nodes| ==> nodes[i] in Repr
        invariant first == (if nodes == [] then null else nodes[0])
        invariant forall i, j :: 0 <= i < j < |nodes| ==> nodes[i] != nodes[j]
        invariant Linked(nodes)
        decreases |nodes|
      {
        var p := first;
        first := first.next;
        nodes := nodes[1..];
      }
      last := null;
    }
  }
}
