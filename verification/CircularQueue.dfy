/** The ring buffer of `common/circular_queue.go`, which behaves like a bounded sequence. */
module CircularQueues {

  /** The slot `i` places behind slot `pos` of a ring. */
  function At(pos: nat, i: nat, size: nat): (s: nat)
    requires pos < size
    ensures s < size
  {
    (pos + i) % size
  }

  /** The first `n` elements of a ring from `pos` on. */
  function Ring<T>(items: seq<T>, pos: nat, n: nat): (r: seq<T>)
    requires n <= |items| && (pos < |items| || |items| == 0)
    ensures |r| == n && forall i :: 0 <= i < n ==> r[i] == items[At(pos, i, |items|)]
  {
    seq(n, i requires 0 <= i < n => items[At(pos, i, |items|)])
  }

  lemma AtValue(pos: nat, i: nat, size: nat)
    requires pos < size && i <= size
    ensures At(pos, i, size) == if pos + i < size then pos + i else pos + i - size
  {
    var q, r := (pos + i) / size, (pos + i) % size;
    assert pos + i == q * size + r;
    if q >= 2 {
      Multiple(q, size, 2);
    } else if q == 0 {
      assert q * size == 0;
    }
  }

  lemma Multiple(q: nat, size: nat, k: nat)
    requires q >= k
    ensures q * size >= k * size
  {}

  lemma RingWrite<T>(items: seq<T>, pos: nat, n: nat, x: T)
    requires n < |items| && pos < |items|
    ensures Ring(items[At(pos, n, |items|) := x], pos, n + 1) == Ring(items, pos, n) + [x]
    ensures Ring(items[At(pos, n, |items|) := x], pos, n) == Ring(items, pos, n)
  {
    hide At;
    AtValue(pos, n, |items|);
    forall i | 0 <= i < n
      ensures At(pos, i, |items|) != At(pos, n, |items|)
    {
      AtValue(pos, i, |items|);
    }
  }

  lemma RingAdvance<T>(items: seq<T>, pos: nat, n: nat, x: T)
    requires 0 < n <= |items| && pos < |items|
    ensures Ring(items, pos, n)[0] == items[pos]
    ensures Ring(items[pos := x], At(pos, 1, |items|), n - 1) == Ring(items, pos, n)[1..]
  {
    hide At;
    AtValue(pos, 0, |items|);
    AtValue(pos, 1, |items|);
    forall i | 0 <= i < n - 1
      ensures At(At(pos, 1, |items|), i, |items|) == At(pos, i + 1, |items|) != pos
    {
      AtValue(pos, i + 1, |items|);
      AtValue(At(pos, 1, |items|), i, |items|);
    }
  }

  /** `zero` is Go's zero value of the element type, left in slots that are vacated. */
  class CircularQueue<T(==)> {
    const size: nat
    const zero: T
    const items: array<T>
    var count: int
    var pos: nat

    ghost predicate Valid()
      reads this
    {
      items.Length == size && 0 <= count <= size && (pos < size || size == pos == 0)
    }

    /** The first `n` slots from the head on, occupied or not. */
    ghost function Window(n: nat): (w: seq<T>)
      requires Valid() && n <= size
      reads this, items
    {
      Ring(items[..], pos, n)
    }

    /** The abstract value: the queued elements, oldest first. */
    ghost function Contents(): (s: seq<T>)
      requires Valid()
      reads this, items
      ensures |s| == count
    {
      Window(count)
    }

    constructor (size: nat, zero: T)
      ensures Valid() && this.size == size && this.zero == zero && fresh(items)
      ensures Contents() == []
    {
      this.size, this.zero := size, zero;
      items := new T[size](i => zero);
      count, pos := 0, 0;
    }

    method Push(item: T) returns (ok: bool)
      requires Valid()
      modifies this`count, items
      ensures Valid()
      ensures ok <==> |old(Contents())| < size
      ensures Contents() == if ok then old(Contents()) + [item] else old(Contents())
    {
      if count == size {
        return false;
      }
      RingWrite(items[..], pos, count, item);
      items[At(pos, count, size)] := item;
      count := count + 1;
      return true;
    }

    method Pop() returns (result: T)
      requires Valid()
      modifies this`count, this`pos, items
      ensures Valid()
      ensures old(Contents()) == [] ==> result == zero && Contents() == []
      ensures old(Contents()) != [] ==> result == old(Contents())[0] && Contents() == old(Contents())[1..]
    {
      if count == 0 {
        return zero;
      }
      RingAdvance(items[..], pos, count, zero);
      result := items[pos];
      items[pos] := zero;
      pos := At(pos, 1, size);
      count := count - 1;
    }

    method Peek() returns (result: T)
      requires Valid()
      ensures result == if Contents() == [] then zero else Contents()[0]
    {
      if count == 0 {
        return zero;
      }
      RingAdvance(items[..], pos, count, zero);
      result := items[pos];
    }

    method Len() returns (n: nat)
      requires Valid()
      ensures n == |Contents()|
    {
      n := count;
    }

    method IsFull() returns (full: bool)
      requires Valid()
      ensures full <==> |Contents()| == size
    {
      full := count == size;
    }

    /** Moves the end of the queue: it truncates, and beyond the old end it brings vacated slots back. A negative count
        is stored as it is, and then the queue is no longer valid. */
    method SetCount(cnt: int)
      requires Valid()
      modifies this`count
      ensures count == (if cnt < size then cnt else size) && (Valid() <==> cnt >= 0)
      ensures cnt >= 0 ==> Contents() == old(Window(if cnt < size then cnt else size))
      ensures 0 <= cnt <= |old(Contents())| ==> Contents() == old(Contents())[..cnt]
    {
      count := if cnt < size then cnt else size;
    }

    method ClearFrom(from: int)
      requires Valid()
      modifies this`count, items
      ensures Valid()
      ensures var n := |old(Contents())|; var keep := if from < 0 then 0 else if from < n then from else n;
              Contents() == old(Contents())[..keep]
    {
      var oldLen := count;
      var start := if from > 0 then from else 0;
      ghost var keep := if start < oldLen then start else oldLen;
      var i := start;
      while i < oldLen
        invariant start <= i && Valid()
        invariant count == if start < oldLen then oldLen - (i - start) else oldLen
        invariant keep <= count && Window(keep) == old(Contents())[..keep]
      {
        Untouched(items[..], pos, keep, i, zero);
        items[At(pos, i, size)] := zero;
        count := count - 1;
        i := i + 1;
      }
    }

    method Find(handler: T -> bool) returns (index: int)
      requires Valid()
      ensures -1 <= index < |Contents()|
      ensures index >= 0 ==> handler(Contents()[index]) && forall i :: 0 <= i < index ==> !handler(Contents()[i])
      ensures index < 0 ==> forall i :: 0 <= i < |Contents()| ==> !handler(Contents()[i])
    {
      for i := 0 to count
        invariant forall j :: 0 <= j < i ==> !handler(Contents()[j])
      {
        var slot := At(pos, i, size);
        assert items[slot] == Contents()[i];
        if handler(items[slot]) {
          return i;
        }
      }
      return -1;
    }

    method ToList() returns (lst: seq<T>)
      requires Valid()
      ensures lst == Contents()
    {
      lst := [];
      for i := 0 to count
        invariant lst == Contents()[..i]
      {
        lst := lst + [items[At(pos, i, size)]];
      }
    }
  }

  /** Writing behind the first `n` elements does not change them. */
  lemma Untouched<T>(items: seq<T>, pos: nat, n: nat, k: nat, x: T)
    requires n <= k < |items| && pos < |items|
    ensures Ring(items[At(pos, k, |items|) := x], pos, n) == Ring(items, pos, n)
  {
    hide At;
    AtValue(pos, k, |items|);
    forall i | 0 <= i < n
      ensures At(pos, i, |items|) != At(pos, k, |items|)
    {
      AtValue(pos, i, |items|);
    }
  }
}
