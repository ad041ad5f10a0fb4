/** src/helper/wr_queue.c: a bounded FIFO kept in a ring of `capacity` cells. */
module RingQueue {
  import opened Seqs

  /** `a % n` without nonlinear arithmetic, for offsets below twice the modulus. */
  lemma ModOnce(a: nat, n: nat)
    requires n > 0 && a < 2 * n
    ensures a % n == if a < n then a else a - n
  {
    if a >= n { assert a == 1 * n + (a - n); }
  }

  /** The cell that holds the `i`-th element of a queue whose head is in cell `front`. */
  function Cell(front: nat, i: nat, n: nat): nat {
    if front + i < n then front + i else front + i - n
  }

  class Queue<T(==)> {
    const capacity: nat
    const elements: array<Option<T>>   // None: a cell that was never written
    var front: int
    var rear: int
    var count: nat
    ghost var contents: seq<T>

    ghost predicate Valid()
      reads this, elements
      ensures Valid() ==> count == |contents| <= capacity
    {
      && elements.Length == capacity
      && count == |contents| <= capacity
      && (count == 0 ==> front == -1 && rear == -1)
      && (count > 0 ==> 0 <= front < capacity && rear == Cell(front, count - 1, capacity))
      && forall i :: 0 <= i < count ==> elements[Cell(front, i, capacity)] == Some(contents[i])
    }

    constructor (size: nat)
      ensures Valid() && fresh(elements)
      ensures capacity == size && contents == []
    {
      capacity := size;
      elements := new Option<T>[size](_ => None);
      front, rear, count := -1, -1, 0;
      contents := [];
    }

    /** wr_queue_insert and the WR_QUEUE_INSERT macro. */
    method Insert(x: T) returns (ok: bool)
      requires Valid()
      modifies this, elements
      ensures Valid()
      ensures ok == (|old(contents)| < capacity)
      ensures contents == if ok then old(contents) + [x] else old(contents)
    {
      if count < capacity {
        ModOnce(rear + 1, capacity);
        count := count + 1;
        rear := (rear + 1) % capacity;
        if front == -1 {
          front := 0;
        }
        elements[rear] := Some(x);
        contents := contents + [x];
        return true;
      }
      return false;
    }

    /** wr_queue_fetch and the WR_QUEUE_FETCH macro. */
    method Fetch() returns (x: Option<T>)
      requires Valid()
      modifies this
      ensures Valid()
      ensures old(contents) == [] ==> x == None && contents == []
      ensures old(contents) != [] ==> x == Some(old(contents)[0]) && contents == old(contents)[1..]
    {
      if count > 0 {
        x := elements[front];
        if rear == front {
          front, rear := -1, -1;
        } else {
          ModOnce(front + 1, capacity);
          front := (front + 1) % capacity;
        }
        count := count - 1;
        contents := contents[1..];
        return;
      }
      x := None;
    }

    /** The cell of the `i`-th element, as both loops of wr_queue_remove compute it. */
    method Index(i: nat) returns (c: nat)
      requires 0 <= front < capacity && i <= capacity
      ensures c == Cell(front, i, capacity)
    {
      ModOnce(front + i, capacity);
      c := (front + i) % capacity;
    }

    /** Reading the `i`-th element without taking it out, as the loops of wr_application.c do. */
    method Peek(i: nat) returns (x: T)
      requires Valid() && i < |contents|
      ensures x == contents[i]
    {
      var c := Index(i);
      assert elements[Cell(front, i, capacity)] == Some(contents[i]);
      x := elements[c].value;
    }

    /** wr_queue_remove: search, then close the gap. */
    method Remove(x: T) returns (found: bool)
      requires Valid()
      modifies this, elements
      ensures Valid()
      ensures found == (x in old(contents))
      ensures contents == Without(old(contents), x)
    {
      var i := Search(x);
      if i == count {
        WithoutAbsent(contents, x);
        return false;
      }
      WithoutAt(contents, x, i);
      RemoveAt(i);
      return true;
    }

    /** The first loop of wr_queue_remove. */
    method Search(x: T) returns (i: nat)
      requires Valid()
      ensures i <= |contents| && x !in contents[..i]
      ensures i < |contents| ==> contents[i] == x
    {
      i := 0;
      while i < count
        invariant 0 <= i <= count
        invariant x !in contents[..i]
      {
        var c := Index(i);
        if elements[c] == Some(x) {
          return;
        }
        i := i + 1;
      }
    }

    /** The rest: close the gap across the wrap point and step the rear back. */
    method RemoveAt(i: nat)
      requires Valid() && i < |contents|
      modifies this, elements
      ensures Valid() && contents == old(contents)[..i] + old(contents)[i + 1..]
    {
      ghost var was := contents;
      count := count - 1;
      CloseGap(i);
      contents := was[..i] + was[i + 1..];
      assert forall j :: 0 <= j < count ==> contents[j] == was[if j < i then j else j + 1];
      if rear == front {
        front, rear := -1, -1;
      } else if rear == 0 {
        rear := capacity - 1;
      } else {
        rear := rear - 1;
      }
    }

    lemma CellsInside()
      requires 0 <= front < capacity
      ensures forall j :: 0 <= j < capacity ==> 0 <= Cell(front, j, capacity) < capacity
    {}

    /** One step of that loop: the `i`-th element is overwritten by its successor. */
    method CopyBack(i: nat)
      requires elements.Length == capacity && 0 <= front < capacity && i < count < capacity
      modifies elements
      ensures elements[Cell(front, i, capacity)] == old(elements[Cell(front, i + 1, capacity)])
      ensures forall j :: 0 <= j <= count && j != i ==>
        elements[Cell(front, j, capacity)] == old(elements[Cell(front, j, capacity)])
    {
      var into := Index(i);
      var from := Index(i + 1);
      elements[into] := elements[from];
    }

    /** The second loop of wr_queue_remove, entered with `count` already lowered. */
    method CloseGap(hole: nat)
      requires elements.Length == capacity && 0 <= front < capacity
      requires hole <= count < capacity
      modifies elements
      ensures forall j :: 0 <= j < count ==>
        elements[Cell(front, j, capacity)]
          == old(elements[Cell(front, if j < hole then j else j + 1, capacity)])
    {
      hide Cell;
      CellsInside();
      var i := hole;
      while i < count
        invariant hole <= i <= count
        invariant forall j :: 0 <= j < i ==>
          elements[Cell(front, j, capacity)]
            == old(elements[Cell(front, if j < hole then j else j + 1, capacity)])
        invariant forall j :: i < j <= count ==>
          elements[Cell(front, j, capacity)] == old(elements[Cell(front, j, capacity)])
      {
        CopyBack(i);
        i := i + 1;
      }
    }
  }
}
