/** The overwriting ring buffer: preallocated slots, newest lines win. */
module L4Ring {
  import opened Bytes
  import opened Options
  import opened SpoolBase
  import opened L4PipelineSpec

  /** (head + i) % capacity without the division. */
  function Slot(head: nat, i: nat, capacity: nat): nat
    requires head < capacity && i <= capacity
  {
    if head + i < capacity then head + i else head + i - capacity
  }

  lemma SlotIsModulo(head: nat, i: nat, capacity: nat)
    requires head < capacity && i <= capacity
    ensures (head + i) % capacity == Slot(head, i, capacity)
  {
    ModuloOnce(Slot(head, i, capacity), if head + i < capacity then 0 else 1, capacity);
  }

  lemma ModuloOnce(r: nat, q: nat, n: nat)
    requires r < n && q <= 1
    ensures (q * n + r) % n == r
  {
  }

  lemma SlotNext(head: nat, i: nat, capacity: nat)
    requires head < capacity && i < capacity
    ensures Slot(Slot(head, 1, capacity), i, capacity) == Slot(head, i + 1, capacity)
  {
  }

  class L4Ring {
    const capacity: nat
    const slots: array<seq<Byte>>
    const lens: array<nat>
    var head: nat
    var count: nat
    /** The queued lines, oldest first. */
    ghost var queue: seq<Line>

    ghost predicate Valid()
      reads this, slots, lens
    {
      && capacity >= 1 && slots.Length == lens.Length == capacity && head < capacity
      && count == |queue| <= capacity
      && (forall i :: 0 <= i < count ==> Holds(Slot(head, i, capacity), queue[i]))
    }

    ghost predicate Holds(k: nat, line: Line)
      reads this, slots, lens
    {
      k < slots.Length && k < lens.Length && slots[k] == line && lens[k] == |line|
    }

    constructor (capacity: nat)
      ensures Valid() && queue == [] && this.capacity == (if capacity < 1 then 1 else capacity)
      ensures fresh(slots) && fresh(lens)
    {
      var n := if capacity < 1 then 1 else capacity;
      this.capacity := n;
      slots := new seq<Byte>[n](_ => []);
      lens := new nat[n](_ => 0);
      head, count, queue := 0, 0, [];
    }

    /** The oldest line leaves. */
    method DropOldest()
      requires Valid() && count > 0
      modifies this`head, this`count, this`queue
      ensures Valid() && queue == old(queue)[1..]
    {
      forall i | 0 <= i < count - 1 ensures Holds(Slot(Slot(head, 1, capacity), i, capacity), queue[1..][i]) {
        SlotNext(head, i, capacity);
        assert Holds(Slot(head, i + 1, capacity), queue[i + 1]);
      }
      SlotIsModulo(head, 1, capacity);
      head := (head + 1) % capacity;
      count := count - 1;
      queue := queue[1..];
    }

    /** push: a full ring loses its oldest line. */
    method Push(line: Line) returns (evicted: nat)
      requires Valid()
      modifies this`head, this`count, this`queue, slots, lens
      ensures Valid()
      ensures queue == L4PipelineSpec.Push(old(queue), capacity, line)
      ensures evicted == Evicted(old(queue), capacity)
    {
      evicted := 0;
      if count == capacity {
        DropOldest();
        evicted := 1;
      }
      SlotIsModulo(head, count, capacity);
      var write := (head + count) % capacity;
      slots[write] := line;
      lens[write] := |line|;
      queue := queue + [line];
      count := count + 1;
    }

    /** pop */
    method Pop() returns (line: Line, ok: bool)
      requires Valid()
      modifies this`head, this`count, this`queue
      ensures Valid()
      ensures ok == (old(queue) != [])
      ensures ok ==> line == old(queue)[0] && queue == old(queue)[1..]
      ensures !ok ==> queue == old(queue)
    {
      if count == 0 {
        return [], false;
      }
      assert Holds(Slot(head, 0, capacity), queue[0]);
      line := slots[head][..lens[head]];
      DropOldest();
      ok := true;
    }

    /** depth */
    method Depth() returns (n: nat)
      requires Valid()
      ensures n == |queue|
    {
      n := count;
    }
  }
}
