/**
 * The earlier `threadsafe_stack<T>`: the same stack of possibly-null owning pointers, but
 * its `size` also admits `bool`, and its `empty_stack` declares `what()` without defining
 * it, so the exception carries no message here.
 */
module EarlyThreadsafeStack {
  import opened Wrappers
  import opened IntegralCast

  class Stack<T> {
    /** The pointers held, bottom first: the top is the last one. */
    var data: seq<Option<T>>

    /** The default constructor: an empty stack. */
    constructor ()
      ensures data == []
    {
      data := [];
    }

    /**
     * The move constructor: takes over the elements of `other`, in their order; `other`
     * is left empty.
     */
    constructor Move(other: Stack<T>)
      modifies other
      ensures data == old(other.data)
      ensures other.data == []
    {
      data := other.data;
      other.data := [];
    }

    /**
     * `push(const T&)` and `push(T&&)`: a fresh pointer to (a copy of) `value` goes on
     * top, above everything that was there.
     */
    method Push(value: T)
      modifies this
      ensures data == old(data) + [Some(value)]
      ensures |data| == |old(data)| + 1 && data[|data| - 1] == Some(value)
    {
      data := data + [Some(value)];
    }

    /** `push(std::unique_ptr<T>)`: the pointer itself, null or not, goes on top. */
    method PushPointer(pointer: Option<T>)
      modifies this
      ensures data == old(data) + [pointer]
      ensures |data| == |old(data)| + 1 && data[|data| - 1] == pointer
    {
      data := data + [pointer];
    }

    /**
     * `push(std::array<std::unique_ptr<T>, N>)`, `N > 0`: the pointers are pushed in array
     * order, so the last one ends on top.
     */
    method PushArray(pointers: seq<Option<T>>)
      requires |pointers| > 0
      modifies this
      ensures data == old(data) + pointers
      ensures |data| == |old(data)| + |pointers| && data[|data| - 1] == pointers[|pointers| - 1]
    {
      for i := 0 to |pointers|
        invariant data == old(data) + pointers[..i]
      {
        data := data + [pointers[i]];
      }
    }

    /**
     * `pop()`: null on an empty stack, which is left as it is; otherwise the top pointer,
     * which leaves the stack.
     */
    method Pop() returns (r: Option<T>)
      modifies this
      ensures old(data) == [] ==> r == None && data == []
      ensures old(data) != [] ==>
        r == old(data)[|old(data)| - 1] && data == old(data)[..|old(data)| - 1]
    {
      if data == [] {
        return None;
      }
      r := data[|data| - 1];
      data := data[..|data| - 1];
    }

    /**
     * `pop(T& elem)`: on an empty stack it throws `empty_stack` and `elem` keeps its value;
     * otherwise `elem` takes the value the top points to and the top leaves the stack. The
     * top must not be null, since it is dereferenced.
     */
    method PopInto(elem: T) returns (elem': T, thrown: bool)
      requires data != [] ==> data[|data| - 1].Some?
      modifies this
      ensures old(data) == [] ==> thrown && elem' == elem && data == []
      ensures old(data) != [] ==>
        !thrown && Some(elem') == old(data)[|old(data)| - 1] && data == old(data)[..|old(data)| - 1]
    {
      if data == [] {
        return elem, true;
      }
      elem' := data[|data| - 1].value;
      thrown := false;
      data := data[..|data| - 1];
    }

    /**
     * `size<I>()` for any integral `I`, `bool` included: the number of pointers held, cast
     * to `I`, which for `bool` tells whether the stack holds anything.
     */
    method Size(t: IntegralType) returns (r: int)
      ensures r == StaticCast(|data|, t)
      ensures t == Bool ==> (r == 1 <==> data != []) && (r == 0 <==> data == [])
      ensures t != Bool ==> Least(t) <= r <= Greatest(t) && r % Modulus(t) == |data| % Modulus(t)
      ensures t != Bool && |data| <= Greatest(t) ==> r == |data|
    {
      r := StaticCast(|data|, t);
      if t != Bool {
        CastInRange(|data|, t);
        if |data| <= Greatest(t) {
          CastKeepsFittingCount(|data|, t);
        }
      }
    }
  }

  /**
   * The integer stack of this file's `main`: 5 pushed by copy and by move, then an array
   * of two null pointers; `size<bool>()` is true, and `size<int>()` is 4.
   */
  method MainScenario() returns (nonEmpty: int, count: int)
    ensures nonEmpty == 1 && count == 4
  {
    var s := new Stack<int>();
    var value := 5;
    s.Push(value);
    s.Push(value);
    s.PushArray([None, None]);
    nonEmpty := s.Size(Bool);
    count := s.Size(Int);
  }

  /** `size<bool>()` of a fresh stack is false. */
  method EmptySizeIsFalse() returns (nonEmpty: int)
    ensures nonEmpty == 0
  {
    var s := new Stack<int>();
    nonEmpty := s.Size(Bool);
  }

  /**
   * `pop(T&)` after pushing 1 and 2 yields 2, then 1, then throws `empty_stack` leaving
   * the last value in place.
   */
  method PopIntoScenario() returns (first: int, second: int, third: int, thrown: bool)
    ensures first == 2 && second == 1 && third == 1 && thrown
  {
    var s := new Stack<int>();
    s.Push(1);
    s.Push(2);
    var e;
    first, e := s.PopInto(0);
    second, e := s.PopInto(first);
    third, thrown := s.PopInto(second);
  }
}
