/**
 * A fixed-size buffer guarded by a writer gate and a version counter
 * (`atomic_memory_location`), and a counted handle onto it (`atomic_memory_pointer`).
 *
 * The model is single-threaded: every method runs alone, so each spin or retry loop
 * leaves on its first pass. `writers` is the gate (0 when no writer is inside),
 * `history` is the version (odd while a write is in progress), `pointers` counts the
 * handles that refer to the location. The ghost set `handles` names those handles, so
 * that "`pointers` is the number of live non-null handles" is an invariant.
 */
module AtomicMemory {

  const PositionTooLarge: string := "position too large"
  const BatchTooLarge: string := "position + array_size too large"

  /** How a `void` member ends: normally, or by throwing `std::runtime_error(what)`. */
  datatype Status = Success | RuntimeError(what: string)

  /** How a value-returning member ends. */
  datatype Outcome<T> = Value(value: T) | Error(what: string)

  /** 2^64: `size_t` arithmetic is taken modulo this. */
  const SizeModulus: nat := 0x1_0000_0000_0000_0000

  /**
   * The bounds test of write_array and read_array, `position + array_size >= size` negated,
   * with the sum formed in `size_t` and so wrapping around 2^64. It is strict: a batch
   * ending at the last slot is refused.
   */
  predicate BatchAdmitted(position: nat, count: nat, size: nat)
  {
    (position + count) % SizeModulus < size
  }

  /** A batch of `count` slots from `position` lies inside a buffer of `size` slots. */
  predicate BatchFits(position: nat, count: nat, size: nat)
  {
    position + count <= size
  }

  /**
   * While `position + count` does not wrap, every admitted batch fits, and a batch that ends
   * exactly at the last slot fits and is refused.
   */
  lemma BatchCheckIsStrict(position: nat, count: nat, size: nat)
    requires size < SizeModulus
    ensures position + count < SizeModulus ==>
      (BatchAdmitted(position, count, size) ==> BatchFits(position, count, size))
    ensures position + count == size ==> BatchFits(position, count, size) && !BatchAdmitted(position, count, size)
  {
  }

  /**
   * For `size_t` arguments, the test admits a batch that does not fit exactly when
   * `position + count` wraps past 2^64 to a value below `size`.
   */
  lemma AdmittedOverrunIffWrapped(position: nat, count: nat, size: nat)
    requires position < SizeModulus && count < SizeModulus && size < SizeModulus
    ensures BatchAdmitted(position, count, size) && !BatchFits(position, count, size) <==>
      SizeModulus <= position + count && position + count - SizeModulus < size
  {
    if SizeModulus <= position + count {
      assert (position + count) % SizeModulus == position + count - SizeModulus;
    }
  }

  /** The last `size_t` position with a batch of one wraps to 0: admitted, yet past the end. */
  lemma WrappedBatchIsAdmitted()
    ensures BatchAdmitted(SizeModulus - 1, 1, 4) && !BatchFits(SizeModulus - 1, 1, 4)
  {
    AdmittedOverrunIffWrapped(SizeModulus - 1, 1, 4);
  }

  /** The contents after storing `values` from `position`, everything else kept. */
  function Spliced<T>(contents: seq<T>, values: seq<T>, position: nat): (r: seq<T>)
    requires position + |values| <= |contents|
    ensures |r| == |contents|
    ensures forall k :: 0 <= k < |r| ==>
      r[k] == if position <= k < position + |values| then values[k - position] else contents[k]
  {
    contents[..position] + values + contents[position + |values|..]
  }

  /** Reading back the slots just spliced in gives the batch that was written. */
  lemma SplicedReadBack<T>(contents: seq<T>, values: seq<T>, position: nat)
    requires position + |values| <= |contents|
    ensures Spliced(contents, values, position)[position .. position + |values|] == values
  {
    var r := Spliced(contents, values, position);
    forall i | 0 <= i < |values| ensures r[position .. position + |values|][i] == values[i] {
      assert r[position + i] == values[i];
    }
  }

  class MemoryLocation<T(0)> {
    var writers: nat
    var history: nat
    var pointers: nat
    /** The live handles whose `ptr` is this location: what `pointers` counts. */
    ghost var handles: set<MemoryPointer<T>>
    const data: array<T>
    const size: nat
    /** Set by the destructor; a destroyed location is no longer valid. */
    var freed: bool

    /** One count per live handle, each of which refers to this location. */
    ghost predicate Counts()
      reads this, handles
    {
      pointers == |handles| && forall h :: h in handles ==> h.ptr == this
    }

    /** Between operations: no writer inside, an even version, and one count per live handle. */
    ghost predicate Valid()
      reads this, handles
    {
      && !freed
      && size == data.Length
      && writers == 0
      && history % 2 == 0
      && Counts()
    }

    /** atomic_memory_location(number_elements): a fresh buffer and all three counters at 0. */
    constructor (numberElements: nat)
      ensures Valid() && fresh(data)
      ensures size == numberElements && writers == 0 && history == 0 && pointers == 0 && handles == {}
    {
      data := new T[numberElements];
      size := numberElements;
      writers, history, pointers := 0, 0, 0;
      handles := {};
      freed := false;
    }

    /**
     * The destructor: it waits until `pointers` is 0 and then frees the buffer. Alone, it
     * could only ever wait, so 0 is demanded of the caller; then no handle is left.
     */
    method Destroy()
      requires Valid() && pointers == 0
      modifies this`freed
      ensures freed && handles == {}
    {
      freed := true;
    }

    /**
     * One attempt of the admission loop: `fetch_add(1)` on the gate, kept when the gate was
     * 0 and undone by `fetch_sub(1)` otherwise, so a refused attempt leaves the gate as it was.
     */
    method TryAdmitWriter() returns (admitted: bool)
      modifies this`writers
      ensures admitted <==> old(writers) == 0
      ensures writers == if admitted then old(writers) + 1 else old(writers)
    {
      var previousWriters := writers;
      writers := writers + 1;
      admitted := previousWriters == 0;
      if !admitted {
        writers := writers - 1;
      }
    }

    /** The admission loop: retry until the gate is taken; alone, the first attempt takes it. */
    method AdmitWriter()
      requires writers == 0
      modifies this`writers
      ensures writers == 1
    {
      var admitted := false;
      while !admitted
        invariant writers == if admitted then 1 else 0
        decreases if admitted then 0 else 1
      {
        admitted := TryAdmitWriter();
      }
    }

    /**
     * write(value, position): refuses a position past the end; otherwise stores `value`
     * there, leaves every other slot alone and raises the version by 2.
     */
    method Write(value: T, position: nat) returns (status: Status)
      requires Valid()
      modifies this`writers, this`history, data
      ensures Valid() && WroteOne(this, value, position, status)
    {
      if position >= size {
        return RuntimeError(PositionTooLarge);
      }
      AdmitWriter();
      history := history + 1;
      data[position] := value;
      history := history + 1;
      writers := writers - 1;
      status := Success;
    }

    /**
     * read(position): refuses a position past the end; otherwise the value in that slot.
     * The version is even and does not move, so the first attempt is kept.
     */
    method Read(position: nat) returns (r: Outcome<T>)
      requires Valid()
      ensures position >= size ==> r == Error(PositionTooLarge)
      ensures position < size ==> r == Value(data[position])
    {
      if position >= size {
        return Error(PositionTooLarge);
      }
      var value: T := *;
      var done := false;
      while !done
        invariant done ==> value == data[position]
        decreases if done then 0 else 1
      {
        var previousVersion := history;
        if previousVersion % 2 == 0 {
          value := data[position];
          // fetch_add(0) reads the version without changing it
          var currentVersion := history;
          done := previousVersion == currentVersion;
        }
      }
      r := Value(value);
    }

    /**
     * write_array(values, position): refuses a batch unless it ends before the last slot;
     * otherwise stores `values[i]` at `position + i` and raises the version by 2.
     */
    method WriteArray(values: seq<T>, position: nat) returns (status: Status)
      requires Valid() && (BatchAdmitted(position, |values|, size) ==> BatchFits(position, |values|, size))
      modifies this`writers, this`history, data
      ensures Valid() && WroteBatch(this, values, position, status)
    {
      if !BatchAdmitted(position, |values|, size) {
        return RuntimeError(BatchTooLarge);
      }
      AdmitWriter();
      history := history + 1;
      for i := 0 to |values|
        invariant writers == 1 && history == old(history) + 1 && BatchAdmitted(position, |values|, size)
        invariant forall k :: 0 <= k < data.Length ==>
          data[k] == if position <= k < position + i then values[k - position] else old(data[k])
      {
        data[position + i] := values[i];
      }
      history := history + 1;
      writers := writers - 1;
      status := Success;
      assert data[..] == Spliced(old(data[..]), values, position);
    }

    /**
     * read_array<count>(position): refuses a batch unless it ends before the last slot;
     * otherwise the `count` values from `position` on.
     */
    method ReadArray(count: nat, position: nat) returns (r: Outcome<seq<T>>)
      requires Valid() && (BatchAdmitted(position, count, size) ==> BatchFits(position, count, size))
      ensures !BatchAdmitted(position, count, size) ==> r == Error(PositionTooLarge)
      ensures BatchAdmitted(position, count, size) ==> r == Value(data[position .. position + count])
    {
      if !BatchAdmitted(position, count, size) {
        return Error(PositionTooLarge);
      }
      var values := new T[count];
      var done := false;
      while !done
        invariant done ==> values[..] == data[position .. position + count]
        decreases if done then 0 else 1
      {
        var previousVersion := history;
        if previousVersion % 2 == 0 {
          for i := 0 to count
            invariant forall k :: 0 <= k < i ==> values[k] == data[position + k]
          {
            values[i] := data[position + i];
          }
          var currentVersion := history;
          done := previousVersion == currentVersion;
        }
      }
      r := Value(values[..]);
    }
  }

  /**
   * What a single-slot write did to `loc`: on success the slot holds `value`, every other
   * slot is kept and the version rose by 2; on refusal nothing changed. The gate, the
   * handle count and the buffer's identity are kept either way.
   */
  twostate predicate WroteOne<T(0)>(loc: MemoryLocation<T>, value: T, position: nat, status: Status)
    reads loc, loc.data
  {
    && loc.writers == old(loc.writers)
    && (position >= loc.size ==>
          status == RuntimeError(PositionTooLarge) && loc.history == old(loc.history) &&
          loc.data[..] == old(loc.data[..]))
    && (position < loc.size ==>
          status == Success && loc.history == old(loc.history) + 2 &&
          position < loc.data.Length && loc.data[..] == old(loc.data[..])[position := value])
  }

  /** What a batch write did to `loc`: the same as WroteOne, for the slots of the batch. */
  twostate predicate WroteBatch<T(0)>(loc: MemoryLocation<T>, values: seq<T>, position: nat, status: Status)
    reads loc, loc.data
  {
    && loc.writers == old(loc.writers)
    && (!BatchAdmitted(position, |values|, loc.size) ==>
          status == RuntimeError(BatchTooLarge) && loc.history == old(loc.history) &&
          loc.data[..] == old(loc.data[..]))
    && (BatchAdmitted(position, |values|, loc.size) ==>
          status == Success && loc.history == old(loc.history) + 2 &&
          position + |values| <= loc.data.Length &&
          loc.data[..] == Spliced(old(loc.data[..]), values, position))
  }

  class MemoryPointer<T(0)> {
    var ptr: MemoryLocation?<T>

    /** A null handle, or one that its location counts. */
    ghost predicate Valid()
      reads this, ptr, if ptr == null then {} else ptr.handles
    {
      ptr != null ==> this in ptr.handles && ptr.Counts()
    }

    /** The location this handle refers to, if any. */
    ghost function Target(): set<MemoryLocation<T>>
      reads this
    {
      if ptr == null then {} else {ptr}
    }

    /** atomic_memory_pointer(location): refers to `location` and adds one to its count. */
    constructor (location: MemoryLocation<T>)
      requires location.Valid()
      modifies location`pointers, location`handles
      ensures ptr == location && Valid()
      ensures location.pointers == old(location.pointers) + 1 && location.handles == old(location.handles) + {this}
    {
      ptr := location;
      new;
      location.pointers := location.pointers + 1;
      location.handles := location.handles + {this};
    }

    /** The copy constructor: refers to the same location and adds one to its count. */
    constructor Copy(other: MemoryPointer<T>)
      requires other.Valid() && other.ptr != null
      modifies other.ptr`pointers, other.ptr`handles
      ensures ptr == other.ptr && Valid() && other.Valid()
      ensures ptr.pointers == old(other.ptr.pointers) + 1 && ptr.handles == old(other.ptr.handles) + {this}
    {
      ptr := other.ptr;
      new;
      ptr.pointers := ptr.pointers + 1;
      ptr.handles := ptr.handles + {this};
    }

    /** The move constructor: takes over `other`'s location, leaves `other` null, count unchanged. */
    constructor Move(other: MemoryPointer<T>)
      requires other.Valid()
      modifies other`ptr, other.Target()`handles
      ensures ptr == old(other.ptr) && other.ptr == null && Valid() && other.Valid()
      ensures ptr != null ==> ptr.pointers == old(other.ptr.pointers) &&
                              ptr.handles == old(other.ptr.handles) - {other} + {this}
    {
      ptr := other.ptr;
      new;
      other.ptr := null;
      if ptr != null {
        ptr.handles := ptr.handles - {other} + {this};
      }
    }

    /** The destructor: a non-null handle takes one off its location's count. */
    method Destroy()
      requires Valid()
      modifies Target()`pointers, Target()`handles
      ensures ptr != null ==> ptr.Counts() && ptr.pointers == old(ptr.pointers) - 1 &&
                              ptr.handles == old(ptr.handles) - {this}
    {
      if ptr == null {
        return;
      }
      ptr.pointers := ptr.pointers - 1;
      ptr.handles := ptr.handles - {this};
    }

    /**
     * Copy assignment: the old location (if any) loses a count, `other`'s location gains one.
     * `other` must not be null: the source dereferences it.
     */
    method CopyAssign(other: MemoryPointer<T>)
      requires Valid() && other.Valid() && other.ptr != null
      modifies this`ptr, Target()`pointers, Target()`handles, other.ptr`pointers, other.ptr`handles
      ensures ptr == old(other.ptr) && Valid() && other.Valid()
      ensures ptr.handles == old(other.ptr.handles) + {this}
      ensures old(ptr) != null && old(ptr) != ptr ==>
        old(ptr).Counts() && old(ptr).handles == old(ptr.handles) - {this}
    {
      Destroy();
      ptr := other.ptr;
      ptr.pointers := ptr.pointers + 1;
      ptr.handles := ptr.handles + {this};
    }

    /**
     * Move assignment: the old location (if any) loses a count, the handle takes over
     * `other`'s location and `other` becomes null. Moving a handle onto itself leaves it null.
     */
    method MoveAssign(other: MemoryPointer<T>)
      requires Valid() && other.Valid()
      modifies this`ptr, other`ptr, Target()`pointers, Target()`handles, other.Target()`handles
      ensures other.ptr == null && Valid() && other.Valid()
      ensures ptr == if this == other then null else old(other.ptr)
      ensures old(ptr) != null && old(ptr) != old(other.ptr) ==>
        old(ptr).Counts() && old(ptr).handles == old(ptr.handles) - {this}
      ensures old(other.ptr) != null && old(ptr) != old(other.ptr) ==>
        old(other.ptr).Counts() && old(other.ptr).handles == old(other.ptr.handles) - {other} + {this}
      ensures old(ptr) != null && old(ptr) == old(other.ptr) ==>
        old(ptr).Counts() && old(ptr).handles == old(ptr.handles) - {other}
    {
      Destroy();
      ptr := other.ptr;
      other.ptr := null;
      if ptr != null {
        ptr.handles := ptr.handles - {other} + {this};
      }
    }

    /** write, forwarded to the location. */
    method Write(value: T, position: nat) returns (status: Status)
      requires Valid() && ptr != null && ptr.Valid()
      modifies ptr`writers, ptr`history, ptr.data
      ensures Valid() && WroteOne(ptr, value, position, status)
    {
      status := ptr.Write(value, position);
    }

    /** read, forwarded to the location. */
    method Read(position: nat) returns (r: Outcome<T>)
      requires Valid() && ptr != null && ptr.Valid()
      ensures position >= ptr.size ==> r == Error(PositionTooLarge)
      ensures position < ptr.size ==> r == Value(ptr.data[position])
    {
      r := ptr.Read(position);
    }

    /** write_array, forwarded to the location. */
    method WriteArray(values: seq<T>, position: nat) returns (status: Status)
      requires Valid() && ptr != null && ptr.Valid()
      requires BatchAdmitted(position, |values|, ptr.size) ==> BatchFits(position, |values|, ptr.size)
      modifies ptr`writers, ptr`history, ptr.data
      ensures Valid() && WroteBatch(ptr, values, position, status)
    {
      status := ptr.WriteArray(values, position);
    }

    /** read_array, forwarded to the location. */
    method ReadArray(count: nat, position: nat) returns (r: Outcome<seq<T>>)
      requires Valid() && ptr != null && ptr.Valid()
      requires BatchAdmitted(position, count, ptr.size) ==> BatchFits(position, count, ptr.size)
      ensures !BatchAdmitted(position, count, ptr.size) ==> r == Error(PositionTooLarge)
      ensures BatchAdmitted(position, count, ptr.size) ==> r == Value(ptr.data[position .. position + count])
    {
      r := ptr.ReadArray(count, position);
    }
  }

  /** A write followed by a read of the same slot gives back the value written. */
  method WriteThenRead<T(0)>(handle: MemoryPointer<T>, value: T, position: nat) returns (r: Outcome<T>)
    requires handle.Valid() && handle.ptr != null && handle.ptr.Valid()
    modifies handle.ptr`writers, handle.ptr`history, handle.ptr.data
    ensures position < old(handle.ptr.size) ==> r == Value(value)
    ensures position >= old(handle.ptr.size) ==> r == Error(PositionTooLarge)
  {
    var status := handle.Write(value, position);
    r := handle.Read(position);
  }

  /** A batch write followed by a batch read of the same slots gives back the batch. */
  method WriteArrayThenReadArray<T(0)>(handle: MemoryPointer<T>, values: seq<T>, position: nat)
    returns (r: Outcome<seq<T>>)
    requires handle.Valid() && handle.ptr != null && handle.ptr.Valid()
    requires BatchAdmitted(position, |values|, handle.ptr.size) ==> BatchFits(position, |values|, handle.ptr.size)
    modifies handle.ptr`writers, handle.ptr`history, handle.ptr.data
    ensures BatchAdmitted(position, |values|, old(handle.ptr.size)) ==> r == Value(values)
    ensures !BatchAdmitted(position, |values|, old(handle.ptr.size)) ==> r == Error(PositionTooLarge)
  {
    ghost var before := handle.ptr.data[..];
    var status := handle.WriteArray(values, position);
    r := handle.ReadArray(|values|, position);
    if BatchAdmitted(position, |values|, old(handle.ptr.size)) {
      SplicedReadBack(before, values, position);
    }
  }
}
