/**
 * `threadsafe_stack<T>`: a stack of owning pointers to `T`, any of which may be null.
 * Every member runs under the stack's mutex, so each is modelled as one atomic step on
 * the sequence of pointers it holds; `None` is a null pointer.
 */
module ThreadsafeStack {
  import opened Wrappers
  import opened IntegralCast

  /** What `empty_stack` reports. */
  const EmptyStackWhat: string := "Error, Empty Stack"

  class Stack<T> {
    /** The pointers held, bottom first: the top is the last one. */
    var data: seq<Option<T>>

    /** The default constructor: an empty stack. */
    constructor ()
      ensures data == []
    {
      data := [];
    }

    /**
     * The move constructor: takes over the elements of `other`, in their order; `other`
     * is left empty.
     */
    constructor Move(other: Stack<T>)
      modifies other
      ensures data == old(other.data)
      ensures other.data == []
    {
      data := other.data;
      other.data := [];
    }

    /**
     * `push(const T&)` and `push(T&&)`: a fresh pointer to (a copy of) `value` goes on
     * top, above everything that was there.
     */
    method Push(value: T)
      modifies this
      ensures data == old(data) + [Some(value)]
      ensures |data| == |old(data)| + 1 && data[|data| - 1] == Some(value)
    {
      data := data + [Some(value)];
    }

    /** `push(std::unique_ptr<T>)`: the pointer itself, null or not, goes on top. */
    method PushPointer(pointer: Option<T>)
      modifies this
      ensures data == old(data) + [pointer]
      ensures |data| == |old(data)| + 1 && data[|data| - 1] == pointer
    {
      data := data + [pointer];
    }

    /**
     * `push(std::array<std::unique_ptr<T>, N>)`, `N > 0`: the pointers are pushed in array
     * order, so the last one ends on top.
     */
    method PushArray(pointers: seq<Option<T>>)
      requires |pointers| > 0
      modifies this
      ensures data == old(data) + pointers
      ensures |data| == |old(data)| + |pointers| && data[|data| - 1] == pointers[|pointers| - 1]
    {
      for i := 0 to |pointers|
        invariant data == old(data) + pointers[..i]
      {
        data := data + [pointers[i]];
      }
    }

    /**
     * `pop()`: null on an empty stack, which is left as it is; otherwise the top pointer,
     * which leaves the stack.
     */
    method Pop() returns (r: Option<T>)
      modifies this
      ensures old(data) == [] ==> r == None && data == []
      ensures old(data) != [] ==>
        r == old(data)[|old(data)| - 1] && data == old(data)[..|old(data)| - 1]
    {
      if data == [] {
        return None;
      }
      r := data[|data| - 1];
      data := data[..|data| - 1];
    }

    /**
     * `pop(T& elem)`: on an empty stack it throws `empty_stack` and `elem` keeps its value;
     * otherwise `elem` takes the value the top points to and the top leaves the stack. The
     * top must not be null, since it is dereferenced.
     */
    method PopInto(elem: T) returns (elem': T, thrown: Option<string>)
      requires data != [] ==> data[|data| - 1].Some?
      modifies this
      ensures old(data) == [] ==> thrown == Some(EmptyStackWhat) && elem' == elem && data == []
      ensures old(data) != [] ==>
        thrown == None && Some(elem') == old(data)[|old(data)| - 1] && data == old(data)[..|old(data)| - 1]
    {
      if data == [] {
        return elem, Some(EmptyStackWhat);
      }
      elem' := data[|data| - 1].value;
      thrown := None;
      data := data[..|data| - 1];
    }

    /**
     * `size<I>()` for an integral `I` other than `bool`: the number of pointers held, cast to
     * `I`; a count `I` can hold comes back exactly.
     */
    method Size(t: IntegralType) returns (r: int)
      requires t != Bool
      ensures r == StaticCast(|data|, t)
      ensures Least(t) <= r <= Greatest(t) && r % Modulus(t) == |data| % Modulus(t)
      ensures |data| <= Greatest(t) ==> r == |data|
    {
      r := StaticCast(|data|, t);
      CastInRange(|data|, t);
      if |data| <= Greatest(t) {
        CastKeepsFittingCount(|data|, t);
      }
    }
  }

  /**
   * The driver's integer stack: 5 pushed by copy and by move, then an array of five null
   * pointers; `size<int>()` is 7, and the top is one of the nulls.
   */
  method DriverScenario() returns (size: int, top: Option<int>, sizeAfter: int)
    ensures size == 7 && top == None && sizeAfter == 6
  {
    var s := new Stack<int>();
    var value := 5;
    s.Push(value);
    s.Push(value);
    s.PushArray([None, None, None, None, None]);
    size := s.Size(Int);
    top := s.Pop();
    sizeAfter := s.Size(Int);
  }

  /**
   * A null pointer pushed on an empty stack pops as null, exactly as popping the empty
   * stack does, and neither leaves anything behind.
   */
  method NullIndistinguishableFromEmpty() returns (fromNull: Option<int>, fromEmpty: Option<int>)
    ensures fromNull == fromEmpty == None
  {
    var s := new Stack<int>();
    s.PushPointer(None);
    fromNull := s.Pop();
    fromEmpty := s.Pop();
  }

  /**
   * `pop(T&)` after pushing 1 and 2 yields 2, then 1, then throws `empty_stack` leaving
   * the last value in place.
   */
  method PopIntoScenario() returns (first: int, second: int, third: int, thrown: Option<string>)
    ensures first == 2 && second == 1 && third == 1 && thrown == Some(EmptyStackWhat)
  {
    var s := new Stack<int>();
    s.Push(1);
    s.Push(2);
    var e;
    first, e := s.PopInto(0);
    second, e := s.PopInto(first);
    third, thrown := s.PopInto(second);
  }

  /** The move constructor keeps the order: the moved-to stack pops the last push first. */
  method MoveKeepsOrder() returns (top: Option<int>, emptied: bool)
    ensures top == Some(3) && emptied
  {
    var s := new Stack<int>();
    s.PushArray([Some(1), Some(2), Some(3)]);
    var t := new Stack<int>.Move(s);
    top := t.Pop();
    emptied := s.data == [];
  }
}
