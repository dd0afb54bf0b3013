/** The transmit ring buffer: a circular array, allocated on first use, that holds a bounded byte string. */
module RingBuffer {
  import opened Basics

  // ----- circular windows -----

  /** The position `count` after `head`. */
  function Slot(capacity: nat, head: nat, count: nat): nat {
    if head + count < capacity then head + count else head + count - capacity
  }

  /** `count` elements of a circular buffer, starting at `head`. */
  function Window<T>(b: seq<T>, head: nat, count: nat): (w: seq<T>)
    requires count <= |b| && (count > 0 ==> head < |b|)
    ensures |w| == count
    decreases count
  {
    if count == 0 then [] else [b[head]] + Window(b, Slot(|b|, head, 1), count - 1)
  }

  lemma WrapsAround(i: nat, capacity: nat)
    requires i < capacity
    ensures (i + 1) % capacity == Slot(capacity, i, 1)
  {
    if i + 1 < capacity { assert (i + 1) / capacity == 0; }
  }

  /** Storing at the tail of a window that is not full appends. */
  lemma {:induction false} WindowPush<T>(b: seq<T>, head: nat, count: nat, x: T)
    requires head < |b| && count < |b|
    ensures Window(b[Slot(|b|, head, count) := x], head, count + 1) == Window(b, head, count) + [x]
    decreases count
  {
    if count != 0 {
      var next := Slot(|b|, head, 1);
      WindowPush(b, next, count - 1, x);
      assert Slot(|b|, next, count - 1) == Slot(|b|, head, count) != head;
      assert [b[head]] + Window(b, next, count - 1) + [x] == [b[head]] + (Window(b, next, count - 1) + [x]);
    }
  }

  /** Moving the head forward removes the first element. */
  lemma WindowPop<T>(b: seq<T>, head: nat, count: nat)
    requires head < |b| && 0 < count <= |b|
    ensures Window(b, head, count) == [b[head]] + Window(b, Slot(|b|, head, 1), count - 1)
  {
  }

  lemma Extend(before: seq<byte>, data: seq<byte>, i: nat)
    requires i < |data|
    ensures before + data[..i] + [data[i]] == before + data[..i + 1]
  {
  }

  lemma Shift(s: seq<byte>, i: nat, x: byte, rest: seq<byte>)
    requires i < |s| && s[i..] == [x] + rest
    ensures s[..i] + [x] == s[..i + 1] && rest == s[i + 1..]
  {
    assert s[i..][0] == x && s[i..][1..] == rest;
  }

  class RingBuffer {
    var buffer: array<byte>
    var capacity: nat
    var head: nat
    var tail: nat
    var count: nat
    ghost var contents: seq<byte>   // the bytes held, oldest first

    ghost predicate Valid()
      reads this, buffer
    {
      && buffer.Length in {0, capacity}
      && count <= buffer.Length
      && (buffer.Length == 0 ==> head == tail == 0)
      && (buffer.Length > 0 ==> head < capacity && tail == Slot(capacity, head, count))
      && contents == Window(buffer[..], head, count)
    }

    constructor (capacity: nat)
      ensures Valid() && fresh(buffer) && contents == [] && this.capacity == capacity
    {
      buffer := new byte[0];
      this.capacity, head, tail, count, contents := capacity, 0, 0, 0, [];
    }

    /** One byte in at the tail. */
    method Put(x: byte)
      requires Valid() && count < buffer.Length
      modifies this`tail, this`count, this`contents, buffer
      ensures Valid() && count == old(count) + 1 && contents == old(contents) + [x]
    {
      WindowPush(buffer[..], head, count, x);
      WrapsAround(tail, capacity);
      buffer[tail] := x;
      assert buffer[..] == old(buffer[..])[tail := x];
      tail := (tail + 1) % capacity;
      count := count + 1;
      contents := contents + [x];
    }

    /** One byte out at the head. */
    method Get() returns (x: byte)
      requires Valid() && count > 0
      modifies this`head, this`count, this`contents
      ensures Valid() && count == old(count) - 1 && old(contents) == [x] + contents
    {
      WindowPop(buffer[..], head, count);
      WrapsAround(head, capacity);
      x := buffer[head];
      head := (head + 1) % capacity;
      count := count - 1;
      contents := contents[1..];
    }

    /** Appends as much as fits. */
    method Write(data: seq<byte>) returns (written: nat)
      requires Valid()
      modifies this, buffer
      ensures Valid() && capacity == old(capacity) && (buffer == old(buffer) || fresh(buffer))
      ensures written == Min(|data|, capacity - |old(contents)|)
      ensures contents == old(contents) + data[..written]
    {
      if capacity == 0 { return 0; }
      var available := capacity - count;
      var toWrite := Min(|data|, available);
      if buffer.Length < capacity {
        buffer := new byte[capacity];
      }
      ghost var before := contents;
      assert before == old(contents);
      for i := 0 to toWrite
        invariant Valid() && buffer.Length == capacity == old(capacity) && count == |before| + i
        invariant buffer == old(buffer) || fresh(buffer)
        invariant contents == before + data[..i]
      {
        Put(data[i]);
        Extend(before, data, i);
      }
      written := toWrite;
    }

    /** Removes up to `maxSize` of the oldest bytes. */
    method Read(maxSize: nat) returns (data: seq<byte>)
      requires Valid()
      modifies this`head, this`count, this`contents
      ensures Valid()
      ensures var n := Min(maxSize, |old(contents)|);
              data == old(contents)[..n] && contents == old(contents)[n..]
    {
      var toRead := Min(maxSize, count);
      ghost var before := contents;
      data := [];
      for i := 0 to toRead
        invariant Valid() && count == |before| - i
        invariant data == before[..i] && contents == before[i..]
      {
        var x := Get();
        Shift(before, i, x, contents);
        data := data + [x];
      }
    }

    method Peek(maxSize: nat) returns (data: seq<byte>)
      requires Valid()
      ensures data == contents[..Min(maxSize, |contents|)]
    {
      var toPeek := Min(maxSize, count);
      data := [];
      var pos: nat := head;
      for i := 0 to toPeek
        invariant toPeek <= count && pos <= buffer.Length && (buffer.Length > 0 ==> pos < capacity)
        invariant data == contents[..i]
        invariant Window(buffer[..], pos, count - i) == contents[i..]
      {
        WindowPop(buffer[..], pos, count - i);
        WrapsAround(pos, capacity);
        Shift(contents, i, buffer[pos], Window(buffer[..], Slot(capacity, pos, 1), count - i - 1));
        data := data + [buffer[pos]];
        pos := (pos + 1) % capacity;
      }
    }

    method Clear()
      requires Valid()
      modifies this`head, this`tail, this`count, this`contents
      ensures Valid() && contents == []
    {
      head, tail, count, contents := 0, 0, 0, [];
    }

    /** Reallocates to exactly the new capacity and keeps the oldest bytes that fit. */
    method Resize(newCapacity: nat)
      requires Valid()
      modifies this, buffer
      ensures Valid() && capacity == newCapacity && fresh(buffer)
      ensures contents == old(contents)[..Min(newCapacity, |old(contents)|)]
    {
      if newCapacity == 0 {
        buffer := new byte[0];
        capacity, head, tail, count, contents := 0, 0, 0, 0, [];
        return;
      }
      var oldData := Read(count);
      assert oldData == old(contents);
      buffer := new byte[newCapacity];
      capacity, head, tail, count, contents := newCapacity, 0, 0, 0, [];
      if oldData != [] {
        var kept := oldData[..Min(|oldData|, newCapacity)];
        var written := Write(kept);
        assert kept[..written] == kept;
      }
    }
  }
}
