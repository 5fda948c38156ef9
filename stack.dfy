/**
  * The growable LIFO buffer of lib/stack/stack.h, over `int`.
  *
  * The contents of a stack are written bottom first, so the top is the last
  * element. `Peek` and `Drop` say what `top()` and `pop()` do to the contents;
  * the class `Stack` implements them over an array whose length is the
  * capacity, and the symbolic machine of the emulator uses them directly on
  * its stack contents.
  */
module Stacks {
  import opened Errors

  /** What `top()` yields: the last pushed value, or a runtime error when empty. */
  function Peek(s: seq<int>): (r: Result<int>)
    ensures r.Ok? <==> s != []
    ensures r.Ok? ==> r.value == s[|s| - 1]
    ensures r.Fail? ==> r.error == Raise(Runtime)
  {
    if s == [] then Fail(Raise(Runtime)) else Ok(s[|s| - 1])
  }

  /** What `pop()` leaves: the contents without their top; nothing on an empty stack. */
  function Drop(s: seq<int>): (r: seq<int>)
    ensures s == [] ==> r == []
    ensures s != [] ==> s == r + [s[|s| - 1]]
  {
    if s == [] then [] else s[..|s| - 1]
  }

  /** The contents after pushing each of `vs`, first one first. */
  function PushAll(s: seq<int>, vs: seq<int>): seq<int>
    decreases |vs|
  {
    if vs == [] then s else PushAll(s + [vs[0]], vs[1..])
  }

  /** `k` rounds of `top()` then `pop()`: the values seen, in order, and what is left. */
  function Drain(s: seq<int>, k: nat): (seq<int>, seq<int>)
    requires k <= |s|
  {
    if k == 0 then ([], s)
    else
      var (seen, rest) := Drain(Drop(s), k - 1);
      ([Peek(s).value] + seen, rest)
  }

  function Reversed(vs: seq<int>): seq<int>
  {
    if vs == [] then [] else [vs[|vs| - 1]] + Reversed(vs[..|vs| - 1])
  }

  /** Pushing values one by one appends them in order. */
  lemma {:induction false} PushAllAppends(s: seq<int>, vs: seq<int>)
    ensures PushAll(s, vs) == s + vs
    decreases |vs|
  {
    if vs != [] {
      PushAllAppends(s + [vs[0]], vs[1..]);
      assert (s + [vs[0]]) + vs[1..] == s + vs;
    }
  }

  /**
    * LIFO: after pushing `vs` onto any stack, as many rounds of top-and-pop
    * see the values in reverse push order and leave the original stack.
    */
  lemma {:induction false} LastInFirstOut(s: seq<int>, vs: seq<int>)
    ensures |PushAll(s, vs)| == |s| + |vs|
    ensures Drain(PushAll(s, vs), |vs|) == (Reversed(vs), s)
  {
    PushAllAppends(s, vs);
    DrainAppended(s, vs);
  }

  lemma {:induction false} DrainAppended(s: seq<int>, vs: seq<int>)
    ensures Drain(s + vs, |vs|) == (Reversed(vs), s)
    decreases |vs|
  {
    if vs != [] {
      var n := |vs|;
      var init := vs[..n - 1];
      assert s + vs == (s + init) + [vs[n - 1]];
      assert Drop(s + vs) == s + init;
      assert Peek(s + vs).value == vs[n - 1];
      DrainAppended(s, init);
      assert Reversed(vs) == [vs[n - 1]] + Reversed(init);
      assert Drain(s + vs, n) == ([vs[n - 1]] + Reversed(init), s);
    } else {
      assert s + vs == s;
    }
  }

  /**
    * `Stack<int>`: `data` is the buffer `_data`, its length the capacity
    * `_capacity`, and `size` is `_size`. `Contents` is the abstract value.
    */
  class Stack {
    var data: array<int>
    var size: nat
    ghost var Contents: seq<int>
    ghost var Repr: set<object>

    ghost predicate Valid()
      reads this, Repr
    {
      Repr == {this, data} && size <= data.Length && Contents == data[..size]
    }

    /** `capacity()`: never less than the number of values held. */
    function Capacity(): (c: nat)
      reads this, Repr
      ensures Valid() ==> |Contents| <= c
    {
      data.Length
    }

    /** `Stack()`: empty, no buffer. */
    constructor ()
      ensures Valid() && fresh(Repr)
      ensures Contents == [] && Capacity() == 0
    {
      data := new int[0];
      size := 0;
      Contents := [];
      new;
      Repr := {this, data};
    }

    /** `Stack(n)`: empty with room for `n` values (no buffer at all when `n` is 0). */
    constructor Reserve(n: nat)
      ensures Valid() && fresh(Repr)
      ensures Contents == [] && Capacity() == n
    {
      data := new int[n];
      size := 0;
      Contents := [];
      new;
      Repr := {this, data};
    }

    /**
      * Copy constructor: the same contents; the same capacity, except that a
      * copy of an empty stack gets no buffer. The source is only read.
      */
    constructor Copy(other: Stack)
      requires other.Valid()
      ensures Valid() && fresh(Repr)
      ensures Contents == other.Contents
      ensures Capacity() == if other.Contents == [] then 0 else other.Capacity()
    {
      var a := new int[if other.size == 0 then 0 else other.data.Length];
      var i := 0;
      while i < other.size
        modifies a
        invariant i <= other.size
        invariant forall j :: 0 <= j < i ==> a[j] == other.data[j]
      {
        a[i] := other.data[i];
        i := i + 1;
      }
      assert a[..other.size] == other.data[..other.size];
      data := a;
      size := other.size;
      Contents := other.Contents;
      new;
      Repr := {this, data};
    }

    /** Move constructor: takes over the buffer; the source is left empty with capacity 0. */
    constructor Move(other: Stack)
      requires other.Valid()
      modifies other
      ensures Valid() && other.Valid() && Repr !! other.Repr
      ensures Contents == old(other.Contents) && Capacity() == old(other.Capacity())
      ensures other.Contents == [] && other.Capacity() == 0
    {
      data := other.data;
      size := other.size;
      Contents := other.Contents;
      new;
      Repr := {this, data};
      other.data := new int[0];
      other.size := 0;
      other.Contents := [];
      other.Repr := {other, other.data};
    }

    /**
      * Copy assignment: afterwards this stack has the other's contents and
      * capacity; assigning a stack to itself changes nothing.
      */
    method Assign(other: Stack)
      requires Valid() && other.Valid()
      modifies Repr
      ensures Valid() && fresh(Repr - old(Repr))
      ensures Contents == old(other.Contents) && Capacity() == old(other.Capacity())
    {
      if other == this {
        return;
      }
      var a := new int[other.data.Length];
      var i := 0;
      while i < other.size
        modifies a
        invariant i <= other.size
        invariant forall j :: 0 <= j < i ==> a[j] == other.data[j]
      {
        a[i] := other.data[i];
        i := i + 1;
      }
      assert a[..other.size] == other.data[..other.size];
      data := a;
      size := other.size;
      Contents := other.Contents;
      Repr := {this, data};
    }

    /** `_resize`: a new buffer of the given capacity holding the same values. */
    method Resize(capacity: nat)
      requires Valid() && size <= capacity
      modifies this
      ensures Valid() && fresh(data) && size == old(size)
      ensures Contents == old(Contents) && Capacity() == capacity
    {
      var a := new int[capacity];
      var i := 0;
      while i < size
        modifies a
        invariant i <= size
        invariant forall j :: 0 <= j < i ==> a[j] == data[j]
      {
        a[i] := data[i];
        i := i + 1;
      }
      assert a[..size] == data[..size];
      data := a;
      Repr := {this, data};
    }

    /** `push`: grows a full buffer to twice its capacity plus one, then appends. */
    method Push(x: int)
      requires Valid()
      modifies Repr
      ensures Valid() && fresh(Repr - old(Repr))
      ensures Contents == old(Contents) + [x]
      ensures Capacity() == if |old(Contents)| == old(Capacity()) then 2 * old(Capacity()) + 1 else old(Capacity())
    {
      if size == data.Length {
        Resize(2 * data.Length + 1);
      }
      data[size] := x;
      size := size + 1;
      Contents := Contents + [x];
      assert Contents == data[..size];
    }

    /** `top`: the last pushed value; a runtime error on an empty stack. */
    method Top() returns (r: Result<int>)
      requires Valid()
      ensures r == Peek(Contents)
    {
      if size == 0 {
        return Fail(Raise(Runtime));
      }
      return Ok(data[size - 1]);
    }

    /**
      * `pop`: drops the top (nothing on an empty stack), then shrinks the
      * buffer to exactly the size when it is more than 1000 slots too large.
      */
    method Pop()
      requires Valid()
      modifies Repr
      ensures Valid() && fresh(Repr - old(Repr))
      ensures Contents == Drop(old(Contents))
      ensures Capacity() == if |Contents| * 2 + 1000 < old(Capacity()) then |Contents| else old(Capacity())
    {
      if size != 0 {
        size := size - 1;
        Contents := Contents[..size];
        assert Contents == data[..size];
      }
      if size * 2 + 1000 < data.Length {
        Resize(size);
      }
    }

    /** `empty()`. */
    method IsEmpty() returns (b: bool)
      requires Valid()
      ensures b <==> Contents == []
    {
      return size == 0;
    }

    /** `size()`. */
    method Size() returns (n: nat)
      requires Valid()
      ensures n == |Contents|
    {
      return size;
    }
  }
}
