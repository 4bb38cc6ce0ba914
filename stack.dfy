/** The fixed-capacity stack of src/cical_stack.c: a 32-slot buffer and the
    index `top` of the topmost element, -1 when empty. Neither push nor pop
    checks its bound, so both say so in their preconditions. */
module CicalStack {
  import opened Util

  /** MAX_STACK_SIZE of include/cical_stack.h. */
  const MaxStackSize := 32

  class Stack<T(0)> {
    var buf: array<T>
    var top: int

    ghost predicate Valid()
      reads this
    {
      buf.Length == MaxStackSize && -1 <= top < MaxStackSize
    }

    /** The elements on the stack, bottom first. */
    ghost function Elements(): seq<T>
      reads this, buf
      requires Valid()
    {
      buf[..top + 1]
    }

    /** stack_create: top = -1. */
    constructor ()
      ensures Valid() && fresh(buf)
      ensures top == -1 && Elements() == []
    {
      buf := new T[MaxStackSize];
      top := -1;
    }

    /** stack_push: stores x at top + 1 and increments top. */
    method Push(x: T)
      requires Valid() && top < MaxStackSize - 1
      modifies this, buf
      ensures Valid() && buf == old(buf)
      ensures top == old(top) + 1 && buf[top] == x
      ensures forall i :: 0 <= i < MaxStackSize && i != top ==> buf[i] == old(buf[i])
      ensures Elements() == old(Elements()) + [x]
    {
      top := top + 1;
      buf[top] := x;
    }

    /** stack_pop: returns buf[top] and decrements top; the buffer is untouched. */
    method Pop() returns (x: T)
      requires Valid() && top >= 0
      modifies this
      ensures Valid() && buf == old(buf)
      ensures x == old(buf[top]) && top == old(top) - 1
      ensures x == old(Elements())[|old(Elements())| - 1]
      ensures Elements() == old(Elements())[..|old(Elements())| - 1]
    {
      x := buf[top];
      top := top - 1;
    }
  }

  /** stack_push on a possibly null stack: a null stack is left alone. */
  method StackPush<T(0)>(s: Stack?<T>, x: T)
    requires s != null ==> s.Valid() && s.top < MaxStackSize - 1
    modifies if s == null then {} else {s, s.buf}
    ensures s != null ==> s.Valid() && s.buf == old(s.buf) && s.Elements() == old(s.Elements()) + [x]
  {
    if s != null {
      s.Push(x);
    }
  }

  /** stack_pop on a possibly null stack: null gives null. */
  method StackPop<T(0)>(s: Stack?<T>) returns (x: Option<T>)
    requires s != null ==> s.Valid() && s.top >= 0
    modifies s
    ensures s == null ==> x == None
    ensures s != null ==> s.Valid() && s.buf == old(s.buf)
    ensures s != null ==> x == Some(old(s.Elements())[|old(s.Elements())| - 1])
    ensures s != null ==> s.Elements() == old(s.Elements())[..|old(s.Elements())| - 1]
  {
    if s == null {
      x := None;
    } else {
      var y := s.Pop();
      x := Some(y);
    }
  }

  /** stack_empty: true exactly for a non-null stack holding nothing. */
  method StackEmpty<T(0)>(s: Stack?<T>) returns (b: bool)
    requires s != null ==> s.Valid()
    ensures b <==> s != null && s.Elements() == []
  {
    b := s != null && s.top < 0;
  }

  /** A push followed by a pop gives back the pushed element and the stack
      as it was (LIFO). */
  method PushThenPop<T(0)>(s: Stack<T>, x: T) returns (y: T)
    requires s.Valid() && s.top < MaxStackSize - 1
    modifies s, s.buf
    ensures s.Valid() && y == x
    ensures s.top == old(s.top) && s.Elements() == old(s.Elements())
  {
    s.Push(x);
    y := s.Pop();
  }
}
