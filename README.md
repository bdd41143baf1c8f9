# multithreading-cpp, modelled in Dafny

This project models the sequential core of a set of C++ concurrency exercises and proves
properties of that model. It covers seven parts:

- **All-pairs shortest paths** (`Apsp`, apsp.dfy):
  - parsing of `source target weight` lines into adjacency maps, including `unsigned int` wrap-around on repeated edges;
  - Dijkstra's algorithm over a min-priority queue, proved to compute the shortest walk weights;
  - the row-major all-pairs matrix;
  - the per-column "furthest reaching vertex" scan, and `do_work_serial`, which combines the last two.
- **Versioned memory location and counted handle** (`AtomicMemory`, atomic_memory.dfy):
  - the buffer, its writer gate (`writers`), its version counter (`history`) and its handle count (`pointers`);
  - single-slot and batch writes and reads, with their bounds errors;
  - the handle's constructors, destructor and copy and move assignment;
  - a ghost set of live handles, so that "`pointers` is the number of live handles" is an invariant every handle operation keeps.
- **Atomic fetch-max** (`AtomicMinMax`, atomic_min_max.dfy): the two compare-and-swap loops, one that always stores and one that stores only when `v` is larger.
- **Thread-safe stack** (`ThreadsafeStack`, stack_threadsafe.dfy), from the header version:
  - a LIFO of possibly-null owning pointers;
  - `pop()` returns null on an empty stack, while `pop(T&)` throws `empty_stack`;
  - array push keeps the array order;
  - `size<I>()` casts the count to any integral type except `bool` (`IntegralCast`, integral_cast.dfy).
- **The earlier stack** (`EarlyThreadsafeStack`, stack_threadsafe_early.dfy): the same stack, except that its `size<bool>()` is allowed and says whether the stack is non-empty.
- **Doubly linked list** (`LinkedList`, linked_list.dfy): `list_append` rewiring `head`, `tail`, `next` and `prev` on the heap, and the `show_items` walk.
- **`box` deep copy** (`Basics`, box.dfy): copy construction and assignment give the breadth a fresh heap cell, so the copies are independent.

Each method runs alone, as it would under the stack's mutex or with a single thread.
Spin and retry loops are written with a flag, and they finish on their first pass.

In a few places the code behaves in ways a reader might not expect, and in two places it contradicts its own comments. The model always follows the code:
- `write_array` and `read_array` refuse a batch with `position + N >= size`. A batch that ends exactly at the last slot is therefore refused (`BatchCheckIsStrict`).
- That sum is formed in `size_t` and wraps around 2^64. A batch whose end wraps to a value below `size` passes the test and is written or read past the end of the buffer (`AdmittedOverrunIffWrapped`, `WrappedBatchIsAdmitted`).
- `read_array` reports "position too large", not the batch message.
- A location of zero elements is accepted.
- Calling a method on a null handle dereferences null in the code. Here it is a precondition.
- The comment on `do_work_serial` says every other source is strictly nearer than the one reported. Two sources can tie, and the scan then reports the lower index. On a graph without edges every other source is at `UINT_MAX`, so ties are the rule there (`UnreachableSourcesTie`).
- The comment on the newer stack's `size` (exercises/01_exercise/stack/stack-threadsafe.hpp:179) says it works for any integral type. The declaration on the next lines excludes `bool`, and `ThreadsafeStack.Stack.Size` follows it.

## Model

| member | source | states |
|---|---|---|
| Apsp.WrapAdd | exercises/04_exercise/apsp.cpp:76 | `+=` on `unsigned int` gives the plain sum whenever that sum is below 2^32 |
| Apsp.ParsedCharacterization | exercises/04_exercise/apsp.cpp:51-77 | after the loop there are exactly `n` maps; `t` is a key of map `s` iff some well-formed line with both indices below `n` names `s t`; the stored weight is the sum of those lines' weights modulo 2^32; every key is a vertex |
| Apsp.ReadConnectivity | exercises/04_exercise/apsp.cpp:43-80 | the parsing loop yields as many maps as the header says (0 when the header does not parse), with exactly the keys and the wrapped weight sums above |
| Apsp.Top | exercises/04_exercise/apsp.cpp:20-25 | the queue's top under `std::greater` has a distance no larger than any queued pair |
| Apsp.RemoveAt | exercises/04_exercise/apsp.cpp:103 | `pop()` removes exactly one copy of the chosen entry: the result is the queue's multiset minus that entry, so every other entry keeps its multiplicity |
| Apsp.RelaxEdge | exercises/04_exercise/apsp.cpp:106-110 | relaxing one edge keeps the loop invariant: an entry only drops, by a walk through the edge, and is then queued |
| Apsp.RelaxEdges | exercises/04_exercise/apsp.cpp:105-111 | after the inner loop every edge out of the popped vertex satisfies the triangle inequality; entries only drop, and each lowered entry is queued; distances and queue stay walk weights from the source |
| Apsp.RelaxedBoundsWalks | exercises/04_exercise/apsp.cpp:99-112 | a distance vector with 0 at the source that satisfies the triangle inequality on every edge bounds every walk from below |
| Apsp.DijkstraShortestPaths | exercises/04_exercise/apsp.cpp:90-115 | the result is the shortest-distance vector: 0 at the source, `UINT_MAX` for vertices no walk reaches and for vertices whose lightest walk weighs at least `UINT_MAX`, the weight of a lightest walk for the rest |
| Apsp.ShortestUnique | exercises/04_exercise/apsp.cpp:82-89 | the documented result is unique: two shortest-distance vectors from one source are equal |
| Apsp.AllPairsShortestPaths | exercises/04_exercise/apsp.cpp:124-139 | an `n * n` vector whose row `i` is the shortest-distance vector from vertex `i`, with 0 on the diagonal |
| Apsp.CalculateLargestSmallestPath | exercises/04_exercise/apsp.cpp:148-169 | one entry per column, each equal to the scan that starts at `(j, 0)` and takes `(source, entry)` whenever the entry is strictly larger |
| Apsp.FurthestIsFirstMaximum | exercises/04_exercise/apsp.cpp:151-166 | the scan's result bounds every entry of its column; it is `(j, 0)` when nothing exceeds 0, else the lowest source attaining the column maximum |
| Apsp.UnreachableSourcesTie | exercises/04_exercise/apsp.cpp:151-166 | on three vertices without edges, do_work_serial leaves sources 1 and 2 both at `UINT_MAX` from vertex 0, and the strict `>` of the scan reports source 1 |
| Apsp.DoWorkSerial | exercises/04_exercise/apsp.cpp:187-194 | the returned pair is the all-pairs matrix (rows are shortest distances) and the column scan over it |
| AtomicMemory.BatchCheckIsStrict | exercises/06_exercise/atomic_memory.h:87-89 | while `position + N` does not wrap, every batch the `>=` test admits fits in the buffer, and a batch ending exactly at the end fits but is refused |
| AtomicMemory.AdmittedOverrunIffWrapped | exercises/06_exercise/atomic_memory.h:87-89 | for `size_t` arguments, the test admits a batch that does not fit exactly when `position + N` wraps past 2^64 to a value below `size` |
| AtomicMemory.WrappedBatchIsAdmitted | exercises/06_exercise/atomic_memory.h:110-112 | position 2^64 - 1 with a batch of one on a 4-slot buffer wraps to 0, is admitted, and does not fit |
| AtomicMemory.Spliced | exercises/06_exercise/atomic_memory.h:100-102 | after the batch loop, slot `position + i` holds `values[i]` and every other slot is kept |
| AtomicMemory.SplicedReadBack | exercises/06_exercise/atomic_memory.h:122-124 | reading back the spliced slots yields exactly the batch written |
| AtomicMemory.MemoryLocation.constructor | exercises/06_exercise/atomic_memory.h:26-29 | a fresh buffer of `number_elements` slots, with the gate, the version and the handle count at 0 |
| AtomicMemory.MemoryLocation.Destroy | exercises/06_exercise/atomic_memory.h:31-39 | teardown completes only once the handle count is 0, and then no handle refers to the location |
| AtomicMemory.MemoryLocation.TryAdmitWriter | exercises/06_exercise/atomic_memory.h:47-51 | one admission attempt succeeds iff the gate was 0, and a failed attempt leaves the gate as it was |
| AtomicMemory.MemoryLocation.AdmitWriter | exercises/06_exercise/atomic_memory.h:46-52 | the admission loop leaves exactly one writer inside the gate |
| AtomicMemory.MemoryLocation.Write | exercises/06_exercise/atomic_memory.h:41-59 | a position at or past the end throws "position too large" and changes nothing; otherwise only that slot changes, to `value`; the version rises by 2 and the gate is released |
| AtomicMemory.MemoryLocation.Read | exercises/06_exercise/atomic_memory.h:61-83 | a position at or past the end throws "position too large"; otherwise the value in that slot |
| AtomicMemory.MemoryLocation.WriteArray | exercises/06_exercise/atomic_memory.h:85-106 | a batch not ending before the last slot throws "position + array_size too large" and changes nothing; otherwise the batch is spliced in, the version rises by 2, and the gate is released |
| AtomicMemory.MemoryLocation.ReadArray | exercises/06_exercise/atomic_memory.h:108-133 | a batch not ending before the last slot throws "position too large"; otherwise the `N` values from `position` |
| AtomicMemory.MemoryPointer.constructor | exercises/06_exercise/atomic_memory.h:144-147 | the handle refers to the location, which counts one more handle |
| AtomicMemory.MemoryPointer.Destroy | exercises/06_exercise/atomic_memory.h:149-156 | a non-null handle takes itself off its location's count; a null one does nothing |
| AtomicMemory.MemoryPointer.Copy | exercises/06_exercise/atomic_memory.h:158-161 | the copy refers to the same location, which counts one more handle |
| AtomicMemory.MemoryPointer.CopyAssign | exercises/06_exercise/atomic_memory.h:163-170 | the old location counts one handle fewer; the new one counts this handle; self-assignment leaves the count unchanged |
| AtomicMemory.MemoryPointer.Move | exercises/06_exercise/atomic_memory.h:172-175 | the new handle takes over `other`'s location, `other` becomes null, and the count is unchanged |
| AtomicMemory.MemoryPointer.MoveAssign | exercises/06_exercise/atomic_memory.h:177-184 | the old location loses this handle; `other`'s location now counts this handle in place of `other`; `other` becomes null; each of the three aliasing cases keeps every count exact |
| AtomicMemory.MemoryPointer.Write | exercises/06_exercise/atomic_memory.h:186-188 | forwards to the location's write, with the same outcome |
| AtomicMemory.MemoryPointer.Read | exercises/06_exercise/atomic_memory.h:190-192 | forwards to the location's read, with the same outcome |
| AtomicMemory.MemoryPointer.WriteArray | exercises/06_exercise/atomic_memory.h:194-197 | forwards to the location's write_array, with the same outcome |
| AtomicMemory.MemoryPointer.ReadArray | exercises/06_exercise/atomic_memory.h:199-202 | forwards to the location's read_array, with the same outcome |
| AtomicMemory.WriteThenRead | exercises/06_exercise/atomic_memory.h:41-83 | reading a slot just written through a handle gives back the value, or both calls fail with the bounds error |
| AtomicMemory.WriteArrayThenReadArray | exercises/06_exercise/atomic_memory.h:85-133 | reading back a batch just written gives the batch, or the read fails with the bounds error |
| AtomicMinMax.Max | exercises/06_exercise/atomic_min_max.h:11 | `std::max` is one of its arguments and no smaller than either |
| AtomicMinMax.AtomicCell.Load | exercises/06_exercise/atomic_min_max.h:10 | `load` returns the value held |
| AtomicMinMax.AtomicCell.CompareExchangeWeak | exercises/06_exercise/atomic_min_max.h:21 | the exchange succeeds iff the cell held `expected`; `expected` then reads the old value; on failure the cell is untouched |
| AtomicMinMax.FetchMaxReadModifyWrite | exercises/06_exercise/atomic_min_max.h:7-13 | returns the value held before and leaves the larger of it and `v`; it always stores exactly once |
| AtomicMinMax.FetchMaxConditionalStore | exercises/06_exercise/atomic_min_max.h:16-25 | returns the value held before and leaves the larger of it and `v`; it stores once if `v` is larger, otherwise never |
| IntegralCast.CastInRange | exercises/01_exercise/stack/stack-threadsafe.hpp:184-185 | a cast to any other integral type lands in that type's range and agrees with the count modulo 2^width |
| IntegralCast.CastKeepsFittingCount | exercises/01_exercise/stack/stack-threadsafe.hpp:184-185 | a count the target type can represent is returned unchanged |
| ThreadsafeStack.Stack.constructor | exercises/01_exercise/stack/stack-threadsafe.hpp:95 | a new stack is empty |
| ThreadsafeStack.Stack.Move | exercises/01_exercise/stack/stack-threadsafe.hpp:98-101 | the new stack holds `other`'s pointers in the same order |
| ThreadsafeStack.Stack.Push | exercises/01_exercise/stack/stack-threadsafe.hpp:113-129 | pushing by copy or by move puts exactly one non-null pointer to the value on top, over the unchanged rest |
| ThreadsafeStack.Stack.PushPointer | exercises/01_exercise/stack/stack-threadsafe.hpp:132-135 | pushing a `unique_ptr` puts exactly that pointer, possibly null, on top |
| ThreadsafeStack.Stack.PushArray | exercises/01_exercise/stack/stack-threadsafe.hpp:139-148 | a non-empty array is appended in array order, so its last element ends on top |
| ThreadsafeStack.Stack.Pop | exercises/01_exercise/stack/stack-threadsafe.hpp:151-162 | an empty stack gives null and stays empty; otherwise the top pointer is returned and removed, the rest kept |
| ThreadsafeStack.Stack.PopInto | exercises/01_exercise/stack/stack-threadsafe.hpp:168-177 | an empty stack throws `empty_stack` ("Error, Empty Stack") and leaves `elem` alone; otherwise `elem` takes the top's value and the top is removed |
| ThreadsafeStack.Stack.Size | exercises/01_exercise/stack/stack-threadsafe.hpp:180-188 | for a non-`bool` integral type: the element count cast to it, which is in range and exact when it fits; the stack is unchanged |
| ThreadsafeStack.DriverScenario | exercises/01_exercise/main.cpp:7-13 | two pushes of 5 and an array of five nulls give `size<int>() == 7`, and the top is null |
| ThreadsafeStack.NullIndistinguishableFromEmpty | exercises/01_exercise/stack/stack-threadsafe.hpp:151-162 | a pushed null pops as null, exactly like popping an empty stack |
| ThreadsafeStack.PopIntoScenario | exercises/01_exercise/stack/stack-threadsafe.hpp:168-177 | `pop(T&)` returns values in LIFO order and then throws, keeping the last value |
| ThreadsafeStack.MoveKeepsOrder | exercises/01_exercise/stack/stack-threadsafe.hpp:98-101 | after a move construction the last pushed value is still popped first |
| EarlyThreadsafeStack.Stack.constructor | 01_exercises/01/stack-threadsafe.cpp:79 | a new stack is empty |
| EarlyThreadsafeStack.Stack.Move | 01_exercises/01/stack-threadsafe.cpp:83-86 | the new stack holds `other`'s pointers in the same order |
| EarlyThreadsafeStack.Stack.Push | 01_exercises/01/stack-threadsafe.cpp:93-106 | pushing by copy or by move puts exactly one non-null pointer to the value on top |
| EarlyThreadsafeStack.Stack.PushPointer | 01_exercises/01/stack-threadsafe.cpp:108-111 | pushing a `unique_ptr` puts exactly that pointer, possibly null, on top |
| EarlyThreadsafeStack.Stack.PushArray | 01_exercises/01/stack-threadsafe.cpp:113-122 | a non-empty array is appended in array order |
| EarlyThreadsafeStack.Stack.Pop | 01_exercises/01/stack-threadsafe.cpp:124-135 | an empty stack gives null and stays empty; otherwise the top is returned and removed |
| EarlyThreadsafeStack.Stack.PopInto | 01_exercises/01/stack-threadsafe.cpp:137-147 | an empty stack throws `empty_stack` and leaves `elem` alone; otherwise `elem` takes the top's value and the top is removed |
| EarlyThreadsafeStack.Stack.Size | 01_exercises/01/stack-threadsafe.cpp:149-157 | for any integral type, `bool` included, the count cast to it: for `bool`, 1 iff the stack is non-empty |
| EarlyThreadsafeStack.MainScenario | 01_exercises/01/stack-threadsafe.cpp:161-171 | two pushes of 5 and an array of two nulls give `size<bool>()` true and a count of 4 |
| EarlyThreadsafeStack.EmptySizeIsFalse | 01_exercises/01/stack-threadsafe.cpp:149-157 | `size<bool>()` of an empty stack is false |
| EarlyThreadsafeStack.PopIntoScenario | 01_exercises/01/stack-threadsafe.cpp:137-147 | `pop(T&)` returns values in LIFO order and then throws, keeping the last value |
| LinkedList.Node.constructor | 00_refresher_cpp/01_pointers/hello-world.c:21-23 | a new node carries `data` and links to nothing |
| LinkedList.List.constructor | 00_refresher_cpp/01_pointers/hello-world.c:14-18 | an empty list has null `head` and `tail` |
| LinkedList.List.Append | 00_refresher_cpp/01_pointers/hello-world.c:20-31 | a fresh node carrying `data` becomes the tail with null `next`. On an empty list it is also the head. Otherwise the old tail's `next` and the new node's `prev` link the two, and the head stays. The list stays doubly linked, and its values become the old ones followed by `data` |
| LinkedList.List.ShowItems | 00_refresher_cpp/01_pointers/hello-world.c:33-41 | the walk from `head` along `next` reports item `i` with the `i`-th value, for exactly the list's length |
| LinkedList.AppendFiveThenShow | 00_refresher_cpp/01_pointers/hello-world.c:46-51 | appending 20, 15, 5, 10, 1 to an empty list and walking it reports those values as items 0 to 4 |
| Basics.Box.constructor | 00_refresher_cpp/02_classes/basics.cpp:15-19 | length and height 0, and a fresh breadth cell |
| Basics.Box.Copy | 00_refresher_cpp/02_classes/basics.cpp:21-26 | the copy has the same three dimensions, with the breadth in a fresh cell |
| Basics.Box.Assign | 00_refresher_cpp/02_classes/basics.cpp:28-36 | self-assignment changes nothing. Otherwise the dimensions are copied and the breadth goes into a fresh cell. The old cell keeps its value and is not released |
| Basics.Box.SetDimensions | 00_refresher_cpp/02_classes/basics.cpp:52-57 | all three dimensions take the given values, in the same breadth cell |
| Basics.Box.SetBreadth | 00_refresher_cpp/02_classes/basics.cpp:67-69 | only the breadth cell changes, to the new value |
| Basics.CopiesAreIndependent | 00_refresher_cpp/02_classes/basics.cpp:21-33 | after copy construction and assignment, setting one box's breadth leaves the others' as they were |
| Basics.SelfAssignmentKeepsBox | 00_refresher_cpp/02_classes/basics.cpp:29 | assigning a box to itself keeps all three dimensions |

## Left out

- Concurrency: interleavings, memory orders, `wait`/`notify_one`, spurious failure of `compare_exchange_weak`, and the mutexes of the stacks are not modelled. Each method runs alone, so every spin or retry loop leaves on its first pass.
- AtomicMemory.MemoryLocation.Destroy: the destructor would wait for the handle count to drop to 0. Here that count is a precondition, because one thread alone could only wait forever.
- AtomicMemory.MemoryLocation.Read: the torn-read detection (an odd or changed version forcing a retry) is present but can never fire, since no other writer runs.
- AtomicMemory.MemoryPointer.CopyAssign: the source dereferences `other`'s location without checking it for null, and falls off the end without `return *this`. Here `other` must be non-null, and nothing is returned.
- AtomicMemory.MemoryPointer.MoveAssign: the source falls off the end without `return *this`, and nothing is returned here.
- AtomicMemory.MemoryPointer.Write: the code dereferences a null handle, with undefined behaviour. The forwarding methods instead require a non-null handle; the same holds for Read, WriteArray and ReadArray.
- Apsp.RelaxEdge: distances are added as unbounded naturals. The program's `unsigned int` sum wraps at 2^32, so the model agrees with it only while every walk weight the algorithm forms stays below 2^32.
- Apsp.DijkstraShortestPaths: built on RelaxEdge, so it agrees with the program only while no walk weight it forms reaches 2^32.
- Apsp.AllPairsShortestPaths: each row comes from DijkstraShortestPaths and carries the same 2^32 limit.
- Apsp.DoWorkSerial: its matrix comes from AllPairsShortestPaths and carries the same 2^32 limit.
- AtomicMinMax.AtomicCell: the templates accept any `T` with `<` and an atomic compare-exchange. The cell holds a mathematical integer instead, so the width, wrap-around and floating-point behaviour of particular `T`s are not modelled.
- AtomicMemory.MemoryLocation.WriteArray: requires that a batch the test admits also fits. When `position + N` wraps past 2^64 to a value below `size`, the program's test admits a batch that does not fit and writes past the buffer. That is undefined behaviour the model cannot represent (`AdmittedOverrunIffWrapped` characterises those inputs). Wrapped batches that the test refuses are modelled and throw as in the program.
- AtomicMemory.MemoryLocation.ReadArray: requires that a batch the test admits also fits, for the same reason. A wrapped sum below `size` makes the program read past the buffer.
- AtomicMemory.MemoryPointer.WriteArray: forwards to the location's WriteArray and carries the same requirement that an admitted batch fits.
- AtomicMemory.MemoryPointer.ReadArray: forwards to the location's ReadArray and carries the same requirement that an admitted batch fits.
- AtomicMemory.WriteArrayThenReadArray: carries the same requirement that an admitted batch fits, as the batch methods it calls do.
- AtomicMemory.MemoryPointer.Copy: requires that `other` is not null. Copying a moved-from handle makes the program dereference null, which is undefined behaviour.
- ThreadsafeStack.Stack.PopInto: requires that the top pointer is not null when the stack is non-empty. The program dereferences the top, so a null top is undefined behaviour. The model also assumes that assigning a `T` from a non-const lvalue does not throw. In the program such a throw escapes `pop(T&)` before the top is removed, leaving the stack and `elem` as they were. `multiple_copy` does exactly this, through `exercises/01_exercise/main.cpp:24`.
- EarlyThreadsafeStack.Stack.PopInto: requires that the top pointer is not null when the stack is non-empty, for the same reason. It also assumes, as the newer stack's PopInto does, that assigning a `T` from a non-const lvalue does not throw. The call at `01_exercises/01/stack-threadsafe.cpp:179` throws from that assignment and leaves the stack and `elem` unchanged.
- Apsp.Top: `std::priority_queue` does not specify which of several equally distant pairs comes out first. The model takes the earliest pushed, and the proved result does not depend on this choice.
- Reading the connectivity file (`ifstream`, `getline`, `stringstream`) is outside the model. The parser takes the header as an optional count and the remaining lines already split into triples or marked malformed.
- `measure_execution_time`, timing, histogram printing and each program's `main` with its console output are outside the model. The drivers' sequences of calls appear as the scenario methods above.
- ThreadsafeStack.Stack.Move: `std::stack`'s move leaves the source valid but unspecified. The model empties it, as the common library implementations do.
- EarlyThreadsafeStack.Stack.Move: the same holds for the earlier stack's move constructor. The model's `other.data == []` is stronger than `std::stack` guarantees.
- The `enable_if` gating of the stack members by type traits becomes a precondition only where it excludes a value (`size` for `bool`). The helper structs `no_copy`, `no_move`, `copy_exception` and `move_exception`, whose only role is to trigger those compile errors, are not modelled. `multiple_copy` passes the gating of `pop(T&)`, because its `const` copy operations are defaulted and do not throw. Its throwing `operator=(multiple_copy&)` is then chosen at run time; see the PopInto lines above.
- EarlyThreadsafeStack.Stack.PopInto: this file declares `empty_stack::what()` without defining it, so the model records only that the exception was thrown.
- IntegralCast: the cast assumes `char` and `wchar_t` are signed, `long` is 64 bits, and signed targets wrap modulo 2^width as C++20 defines.
- LinkedList: the program's `main` allocates the list with the size of a pointer and never initialises `head` and `tail`. The model starts from a properly empty list instead, and `printf` output becomes the reported items.
- Freeing memory (`delete`, `free`, the leaked breadth cell of `box::operator=`) is not modelled; `box::show_data` console output is left out.
- The demonstrations whose whole point is thread interaction, sleeping or timing are not part of this model. These are the Peterson lock, the shared-value counters, the promise and future pipelines, the atomic-flag demo and the thread functor and thread vector demos. The last two also depend on `lib/utility.h`, which is not part of this model.
