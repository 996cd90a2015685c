/** The shared circular buffer (src/sbuffer.c): an array with two wrapping indices that refines a
    queue keeping the newest `size` items. Everything here happens while the buffer's mutex is
    held; waiting and waking are in BufferProtocol. */
module RingBuffer {
  import opened Common

  /** The last `n` elements: what a buffer of capacity n retains of everything pushed. */
  function Newest<T>(s: seq<T>, n: nat): seq<T> {
    s[if |s| <= n then 0 else |s| - n..]
  }

  lemma NewestAbsorbs<T>(a: seq<T>, b: seq<T>, n: nat)
    ensures Newest(Newest(a, n) + b, n) == Newest(a + b, n)
  {
  }

  /** Pushing `xs` one after another into a queue of capacity `size`. */
  function PushAll<T>(q: seq<T>, size: nat, xs: seq<T>): seq<T>
    decreases |xs|
  {
    if xs == [] then q
    else PushAll(Newest(q + [xs[0]], size), size, xs[1..])
  }

  /** After any pushes without pops the contents are the newest `size` of old contents and pushes. */
  lemma {:induction false} PushAllKeepsNewest<T>(q: seq<T>, size: nat, xs: seq<T>)
    requires |q| <= size
    ensures PushAll(q, size, xs) == Newest(q + xs, size)
    decreases |xs|
  {
    if xs == [] {
      assert q + xs == q;
    } else {
      var longer, rest := q + [xs[0]], xs[1..];
      PushAllKeepsNewest(Newest(longer, size), size, rest);
      assert longer + rest == q + xs;
      NewestAbsorbs(longer, rest, size);
    }
  }

  // ---------- index arithmetic ----------

  /** The index i places after `tail`, going round the end of an array of n cells. */
  function Slot(tail: nat, i: nat, n: nat): (s: nat)
    requires tail < n && i <= n
    ensures s < n
  {
    if tail + i < n then tail + i else tail + i - n
  }

  /** The source's remainder is that index. */
  lemma SlotIsRemainder(tail: nat, i: nat, n: nat)
    requires tail < n && i <= n
    ensures (tail + i) % n == Slot(tail, i, n)
  {
    if tail + i >= n {
      assert tail + i == n + Slot(tail, i, n);
    }
  }

  /** The `count` cells from `tail` on. */
  ghost function Unroll<T>(cells: seq<T>, tail: nat, count: nat): (r: seq<T>)
    requires tail < |cells| && count <= |cells|
    ensures |r| == count
  {
    seq(count, i requires 0 <= i < count => cells[Slot(tail, i, |cells|)])
  }

  lemma UnrollPush<T>(cells: seq<T>, tail: nat, count: nat, x: T)
    requires tail < |cells| && count < |cells|
    ensures Unroll(cells[Slot(tail, count, |cells|) := x], tail, count + 1) == Unroll(cells, tail, count) + [x]
  {
  }

  lemma UnrollPop<T>(cells: seq<T>, tail: nat, count: nat)
    requires tail < |cells| && 0 < count <= |cells|
    ensures Unroll(cells, tail, count) == [cells[tail]] + Unroll(cells, Slot(tail, 1, |cells|), count - 1)
    ensures Slot(Slot(tail, 1, |cells|), count - 1, |cells|) == Slot(tail, count, |cells|)
  {
  }

  // ---------- the buffer ----------

  datatype Removal = Popped(reading: Reading) | Dropped(reading: Reading)

  ghost function Readings(rs: seq<Removal>): (r: seq<Reading>)
    ensures |r| == |rs|
  {
    seq(|rs|, i requires 0 <= i < |rs| => rs[i].reading)
  }

  /** The pushes that the queue no longer holds, in order: what a buffer of capacity n has dropped. */
  ghost function Overflow(s: seq<Reading>, n: nat): (r: seq<Removal>)
    ensures |r| + |Newest(s, n)| == |s|
    ensures Readings(r) + Newest(s, n) == s
  {
    seq(|s| - |Newest(s, n)|, i requires 0 <= i < |s| - |Newest(s, n)| => Dropped(s[i]))
  }

  lemma OverflowExtends(a: seq<Reading>, x: Reading, n: nat)
    ensures Overflow(a, n) + Overflow(Newest(a, n) + [x], n) == Overflow(a + [x], n)
  {
  }

  /** What a buffer holds and everything that came and went. */
  datatype View = View(contents: seq<Reading>, pushed: seq<Reading>, removed: seq<Removal>)

  /** The buffer once `xs` have been pushed: the newest of it all is kept, the oldest dropped. */
  ghost function Received(v: View, size: nat, xs: seq<Reading>): View {
    View(Newest(v.contents + xs, size), v.pushed + xs, v.removed + Overflow(v.contents + xs, size))
  }

  lemma OverflowOfOne(s: seq<Reading>, n: nat)
    requires |s| <= n + 1
    ensures Overflow(s, n) == if |s| == n + 1 then [Dropped(s[0])] else []
  {
  }

  lemma ReceivedNothing(v: View, size: nat)
    requires |v.contents| <= size
    ensures Received(v, size, []) == v
  {
    assert v.contents + [] == v.contents;
  }

  lemma ReceivedOneMore(v: View, size: nat, xs: seq<Reading>, x: Reading)
    ensures Received(Received(v, size, xs), size, [x]) == Received(v, size, xs + [x])
  {
    var all := v.contents + xs;
    assert all + [x] == v.contents + (xs + [x]);
    NewestAbsorbs(all, [x], size);
    OverflowExtends(all, x, size);
    assert (v.removed + Overflow(all, size)) + Overflow(Newest(all, size) + [x], size) == v.removed + Overflow(all + [x], size);
  }

  class SBuffer {
    const buffer: array<Reading>
    const size: nat
    var head: nat
    var tail: nat
    var count: nat
    /** Histories: everything ever pushed, and everything that left, in order. */
    ghost var pushed: seq<Reading>
    ghost var removed: seq<Removal>

    ghost predicate Valid()
      reads this, buffer
    {
      && 0 < size == buffer.Length
      && tail < size && count <= size
      && head == Slot(tail, count, size)
      && Readings(removed) + Contents() == pushed
    }

    ghost function Contents(): seq<Reading>
      requires tail < buffer.Length && count <= buffer.Length
      reads this, buffer
    {
      Unroll(buffer[..], tail, count)
    }

    ghost function Seen(): View
      requires Valid()
      reads this, buffer
    {
      View(Contents(), pushed, removed)
    }

    constructor (n: nat)
      requires n > 0
      ensures Valid() && fresh(buffer) && size == n
      ensures Contents() == [] && pushed == [] && removed == []
    {
      buffer := new Reading[n](_ => Reading(0, 0.0, 0));
      size := n;
      head, tail, count := 0, 0, 0;
      pushed, removed := [], [];
    }

    /** sbuffer_init: a size of zero or less is refused. */
    static method Init(n: int) returns (sb: Option<SBuffer>)
      ensures sb.Some? <==> n > 0
      ensures sb.Some? ==> fresh(sb.value) && fresh(sb.value.buffer) && sb.value.Valid()
      ensures sb.Some? ==> sb.value.size == n && sb.value.Contents() == []
    {
      if n <= 0 {
        return None;
      }
      var b := new SBuffer(n);
      return Some(b);
    }

    /** The head is where the source's modular arithmetic puts it. */
    lemma HeadFollowsTail()
      requires Valid()
      ensures head == (tail + count) % size
    {
      SlotIsRemainder(tail, count, size);
    }

    /** sbuffer_push: a full buffer first loses its oldest item. */
    method Push(data: Reading)
      requires Valid()
      modifies this, buffer
      ensures Valid()
      ensures pushed == old(pushed) + [data]
      ensures Contents() == Newest(old(Contents()) + [data], size)
      ensures removed == old(removed) + (if |old(Contents())| == size then [Dropped(old(Contents())[0])] else [])
      ensures Seen() == Received(old(Seen()), size, [data])
    {
      OverflowOfOne(Contents() + [data], size);
      if count == size {
        DropOldest();
      }
      Append(data);
    }

    /** Lines 79-88: the oldest item makes room. */
    method DropOldest()
      requires Valid() && count == size
      modifies this
      ensures Valid() && count < size && pushed == old(pushed)
      ensures Contents() == old(Contents())[1..]
      ensures removed == old(removed) + [Dropped(old(Contents())[0])]
    {
      UnrollPop(buffer[..], tail, count);
      removed := removed + [Dropped(Contents()[0])];
      SlotIsRemainder(tail, 1, size);
      tail := (tail + 1) % size;
      count := count - 1;
      assert Readings(removed) == Readings(old(removed)) + [old(Contents())[0]];
    }

    /** Lines 90-92: the new item goes in at the head. */
    method Append(data: Reading)
      requires Valid() && count < size
      modifies this, buffer
      ensures Valid() && removed == old(removed)
      ensures Contents() == old(Contents()) + [data]
      ensures pushed == old(pushed) + [data]
    {
      UnrollPush(buffer[..], tail, count, data);
      SlotIsRemainder(head, 1, size);
      buffer[head] := data;
      head := (head + 1) % size;
      count := count + 1;
      pushed := pushed + [data];
      assert buffer[..] == old(buffer[..])[old(head) := data];
    }

    /** The tail of sbuffer_pop, reached once the wait loop has ended: -1 (None) on an empty buffer. */
    method Pop() returns (data: Option<Reading>)
      requires Valid()
      modifies this
      ensures Valid()
      ensures pushed == old(pushed)
      ensures data == if old(Contents()) == [] then None else Some(old(Contents())[0])
      ensures Contents() == if data.None? then [] else old(Contents())[1..]
      ensures removed == old(removed) + (if data.None? then [] else [Popped(data.value)])
    {
      if count == 0 {
        return None;
      }
      UnrollPop(buffer[..], tail, count);
      SlotIsRemainder(tail, 1, size);
      data := Some(buffer[tail]);
      tail := (tail + 1) % size;
      count := count - 1;
      removed := removed + [Popped(data.value)];
      assert Readings(removed) == Readings(old(removed)) + [data.value];
    }

    /** sbuffer_count */
    method Count() returns (n: nat)
      requires Valid()
      ensures n == |Contents()| <= size
    {
      n := count;
    }
  }
}
