/**
 * All-pairs shortest paths over a weighted directed graph given as adjacency maps:
 * parsing of `(source, target, weight)` lines, single-source Dijkstra driven by a
 * min-priority queue, the row-major all-pairs matrix and the per-column maximum scan.
 *
 * Distances are `unsigned int` in the program; here they are naturals and
 * `Infinity` (the largest `unsigned int`) is what an unreached vertex keeps. A vertex whose
 * lightest walk weighs at least `Infinity` carries the same value.
 */
module Apsp {
  import opened Wrappers

  /** `std::numeric_limits<unsigned int>::max()`, the distance of a vertex not reached. */
  const Infinity: nat := 0xFFFF_FFFF

  /** 2^32: arithmetic on `unsigned int` is taken modulo this. */
  const Modulus: nat := 0x1_0000_0000

  /** An `unsigned int` edge weight. */
  type Weight = w: nat | w < Modulus

  datatype VertexDistancePair = VertexDistancePair(vertexIndex: nat, distance: nat)

  /** The `std::greater<VertexDistancePair>` specialisation: compares by distance only. */
  predicate Greater(lhs: VertexDistancePair, rhs: VertexDistancePair)
  {
    lhs.distance > rhs.distance
  }

  /** `connectivity[u][v] == w`: an edge u -> v of weight w. */
  type Graph = seq<map<nat, Weight>>

  /** Every edge target is a vertex of the graph. */
  ghost predicate WellFormed(c: Graph)
  {
    forall u, v :: 0 <= u < |c| && v in c[u] ==> v < |c|
  }

  // ---------------------------------------------------------------------------
  // Parsing (read_connectivity without the file reading)
  // ---------------------------------------------------------------------------

  /** One line after the stream extraction: three numbers, or a line that failed to parse. */
  datatype Line = Edge(source: nat, target: nat, weight: Weight) | Malformed

  /** The weight stored for `t` in `m`, 0 when there is none (what `operator[]` inserts). */
  function Lookup(m: map<nat, Weight>, t: nat): Weight
  {
    if t in m then m[t] else 0
  }

  /** `unsigned int` addition, wrapping around. */
  function WrapAdd(a: Weight, b: Weight): (r: Weight)
    ensures a + b < Modulus ==> r == a + b
  {
    (a + b) % Modulus
  }

  /** A line that the loop does not skip. */
  predicate Accepted(line: Line, n: nat)
  {
    line.Edge? && line.source < n && line.target < n
  }

  /** One pass of the parsing loop. */
  function AddLine(c: Graph, line: Line): (r: Graph)
    ensures |r| == |c|
  {
    if Accepted(line, |c|) then
      var s, t := line.source, line.target;
      var row: map<nat, Weight> := c[s][t := WrapAdd(Lookup(c[s], t), line.weight)];
      c[s := row]
    else
      c
  }

  /** The adjacency maps after the parsing loop has consumed `lines`. */
  function Parsed(n: nat, lines: seq<Line>): (r: Graph)
    ensures |r| == n
    decreases |lines|
  {
    if lines == [] then seq(n, _ => map[])
    else AddLine(Parsed(n, lines[..|lines| - 1]), lines[|lines| - 1])
  }

  /** Reference definition: the plain sum of the weights of the accepted lines `s t w`. */
  function WeightSum(lines: seq<Line>, n: nat, s: nat, t: nat): nat
    decreases |lines|
  {
    if lines == [] then 0
    else
      var last := lines[|lines| - 1];
      WeightSum(lines[..|lines| - 1], n, s, t)
        + (if Accepted(last, n) && last.source == s && last.target == t then last.weight else 0)
  }

  /** Some accepted line names the edge `s t`. */
  ghost predicate Mentioned(lines: seq<Line>, n: nat, s: nat, t: nat)
  {
    exists i :: 0 <= i < |lines| && Accepted(lines[i], n) && lines[i].source == s && lines[i].target == t
  }

  lemma ModAddLeft(a: nat, b: nat)
    ensures (a % Modulus + b) % Modulus == (a + b) % Modulus
  {
    var q := a / Modulus;
    assert a == q * Modulus + a % Modulus;
    assert a + b == q * Modulus + (a % Modulus + b);
  }

  /**
   * What the parser produces: exactly `n` maps; `t` is a key of map `s` exactly when some
   * accepted line names `s t` (malformed and out-of-range lines are skipped); the stored
   * weight is the sum of the weights of those lines, modulo 2^32.
   */
  lemma {:induction false} ParsedCharacterization(n: nat, lines: seq<Line>)
    ensures WellFormed(Parsed(n, lines))
    ensures forall s, t :: 0 <= s < n ==> (t in Parsed(n, lines)[s] <==> Mentioned(lines, n, s, t))
    ensures forall s, t :: 0 <= s < n ==> Lookup(Parsed(n, lines)[s], t) == WeightSum(lines, n, s, t) % Modulus
    decreases |lines|
  {
    if lines != [] {
      var init, last := lines[..|lines| - 1], lines[|lines| - 1];
      ParsedCharacterization(n, init);
      var p := Parsed(n, init);
      var r := Parsed(n, lines);
      assert r == AddLine(p, last);
      forall s, t | 0 <= s < n
        ensures t in r[s] <==> Mentioned(lines, n, s, t)
        ensures Lookup(r[s], t) == WeightSum(lines, n, s, t) % Modulus
      {
        var hit := Accepted(last, n) && last.source == s && last.target == t;
        if Mentioned(init, n, s, t) {
          var i :| 0 <= i < |init| && Accepted(init[i], n) && init[i].source == s && init[i].target == t;
          assert lines[i] == init[i];
        }
        if Mentioned(lines, n, s, t) && !hit {
          var i :| 0 <= i < |lines| && Accepted(lines[i], n) && lines[i].source == s && lines[i].target == t;
          assert i < |init| && init[i] == lines[i];
        }
        if hit {
          assert lines[|lines| - 1] == last;
          ModAddLeft(WeightSum(init, n, s, t), last.weight);
        }
      }
    }
  }

  /**
   * read_connectivity on an input already split into lines: `header` is the first line
   * (a header that does not parse leaves the vertex count at 0), `lines` the rest.
   */
  method ReadConnectivity(header: Option<nat>, lines: seq<Line>) returns (c: Graph)
    ensures |c| == (if header.Some? then header.value else 0)
    ensures WellFormed(c)
    ensures forall s, t :: 0 <= s < |c| ==> (t in c[s] <==> Mentioned(lines, |c|, s, t))
    ensures forall s, t :: 0 <= s < |c| ==> Lookup(c[s], t) == WeightSum(lines, |c|, s, t) % Modulus
  {
    var n := if header.Some? then header.value else 0;
    c := seq(n, _ => map[]);
    for i := 0 to |lines|
      invariant c == Parsed(n, lines[..i])
    {
      assert lines[..i + 1][..i] == lines[..i];
      match lines[i]
      case Malformed =>
      case Edge(s, t, w) =>
        if s < n && t < n {
          var row: map<nat, Weight> := c[s][t := WrapAdd(Lookup(c[s], t), w)];
          c := c[s := row];
        }
    }
    assert lines[..|lines|] == lines;
    ParsedCharacterization(n, lines);
  }

  // ---------------------------------------------------------------------------
  // Walks and the meaning of "shortest"
  // ---------------------------------------------------------------------------

  function EdgeWeight(c: Graph, u: nat, v: nat): nat
  {
    if u < |c| && v in c[u] then c[u][v] else 0
  }

  /** `p` is a walk from `s` to `v` along edges of `c`. */
  ghost predicate IsWalk(c: Graph, p: seq<nat>, s: nat, v: nat)
  {
    && |p| > 0 && p[0] == s && p[|p| - 1] == v
    && forall i :: 0 <= i < |p| - 1 ==> p[i] < |c| && p[i + 1] in c[p[i]]
  }

  /** The sum of the edge weights along `p`. */
  ghost function WalkWeight(c: Graph, p: seq<nat>): nat
    decreases |p|
  {
    if |p| <= 1 then 0 else WalkWeight(c, p[..|p| - 1]) + EdgeWeight(c, p[|p| - 2], p[|p| - 1])
  }

  /** Some walk from `s` to `v` weighs exactly `d`. */
  ghost predicate Reaches(c: Graph, s: nat, v: nat, d: nat)
  {
    exists p :: IsWalk(c, p, s, v) && WalkWeight(c, p) == d
  }

  /**
   * `d` holds the shortest distances from `s`: 0 at `s`, every entry below `Infinity` is
   * the weight of a walk from `s`, and no walk from `s` is lighter than the entry of its end.
   */
  ghost predicate ShortestFrom(c: Graph, s: nat, d: seq<nat>)
  {
    && |d| == |c| && s < |c| && d[s] == 0
    && (forall v :: 0 <= v < |d| ==> d[v] <= Infinity)
    && (forall v :: 0 <= v < |d| && d[v] < Infinity ==> Reaches(c, s, v, d[v]))
    && (forall v, p :: 0 <= v < |d| && IsWalk(c, p, s, v) ==> d[v] <= WalkWeight(c, p))
  }

  /** No edge out of `u` can shorten its target's distance. */
  ghost predicate RelaxedAt(c: Graph, d: seq<nat>, u: nat)
    requires WellFormed(c) && u < |c| == |d|
  {
    forall v :: v in c[u] ==> d[v] <= d[u] + c[u][v]
  }

  /** The triangle inequality on every edge leaving a reached vertex. */
  ghost predicate Relaxed(c: Graph, d: seq<nat>)
    requires WellFormed(c) && |c| == |d|
  {
    forall u :: 0 <= u < |c| && d[u] < Infinity ==> RelaxedAt(c, d, u)
  }

  lemma WalkExtend(c: Graph, p: seq<nat>, s: nat, u: nat, v: nat)
    requires IsWalk(c, p, s, u) && u < |c| && v in c[u]
    ensures IsWalk(c, p + [v], s, v) && WalkWeight(c, p + [v]) == WalkWeight(c, p) + c[u][v]
  {
    assert (p + [v])[..|p|] == p;
  }

  /** A relaxed distance vector with 0 at the source bounds every walk from below. */
  lemma {:induction false} RelaxedBoundsWalks(c: Graph, s: nat, d: seq<nat>, p: seq<nat>, v: nat)
    requires WellFormed(c) && |d| == |c| && s < |c| && d[s] == 0
    requires forall u :: 0 <= u < |d| ==> d[u] <= Infinity
    requires Relaxed(c, d)
    requires IsWalk(c, p, s, v) && v < |d|
    ensures d[v] <= WalkWeight(c, p)
    decreases |p|
  {
    if |p| > 1 {
      var q, u := p[..|p| - 1], p[|p| - 2];
      assert IsWalk(c, q, s, u) by {
        forall i | 0 <= i < |q| - 1 ensures q[i] < |c| && q[i + 1] in c[q[i]] {
          assert q[i] == p[i] && q[i + 1] == p[i + 1];
        }
      }
      assert u < |c| && v in c[u];
      RelaxedBoundsWalks(c, s, d, q, u);
      if d[u] < Infinity {
        assert RelaxedAt(c, d, u);
      }
    }
  }

  /** The shortest-distance vector from a source is unique. */
  lemma ShortestUnique(c: Graph, s: nat, d1: seq<nat>, d2: seq<nat>)
    requires ShortestFrom(c, s, d1) && ShortestFrom(c, s, d2)
    ensures d1 == d2
  {
    forall v | 0 <= v < |d1| ensures d1[v] == d2[v] {
      if d1[v] < Infinity {
        var p :| IsWalk(c, p, s, v) && WalkWeight(c, p) == d1[v];
        assert d2[v] <= d1[v];
      }
      if d2[v] < Infinity {
        var p :| IsWalk(c, p, s, v) && WalkWeight(c, p) == d2[v];
        assert d1[v] <= d2[v];
      }
    }
  }

  // ---------------------------------------------------------------------------
  // Dijkstra
  // ---------------------------------------------------------------------------

  function Sum(s: seq<nat>): nat
    decreases |s|
  {
    if s == [] then 0 else Sum(s[..|s| - 1]) + s[|s| - 1]
  }

  lemma {:induction false} SumUpdate(s: seq<nat>, i: nat, x: nat)
    requires i < |s|
    ensures Sum(s[i := x]) + s[i] == Sum(s) + x
    decreases |s|
  {
    var t := s[i := x];
    if i == |s| - 1 {
      assert t[..|t| - 1] == s[..|s| - 1];
    } else {
      assert t[..|t| - 1] == s[..|s| - 1][i := x];
      SumUpdate(s[..|s| - 1], i, x);
    }
  }

  /** The least key of a non-empty set of vertex indices, the first one `std::map` visits. */
  lemma {:induction false} Minimum(keys: set<nat>) returns (m: nat)
    requires keys != {}
    ensures m in keys && forall k :: k in keys ==> m <= k
    decreases keys
  {
    var x :| x in keys;
    if keys == {x} {
      m := x;
    } else {
      var rest := keys - {x};
      var m' := Minimum(rest);
      m := if x < m' then x else m';
      forall k | k in keys ensures m <= k {
        if k != x {
          assert k in rest;
        }
      }
    }
  }

  /**
   * `top()` of the `std::priority_queue` ordered by `std::greater`: no queued pair has a
   * smaller distance. The heap's choice among equal distances is not specified by the
   * library; this takes the first in insertion order.
   */
  method Top(queue: seq<VertexDistancePair>) returns (i: nat)
    requires queue != []
    ensures i < |queue|
    ensures forall j :: 0 <= j < |queue| ==> queue[i].distance <= queue[j].distance
  {
    i := 0;
    for k := 1 to |queue|
      invariant i < k
      invariant forall j :: 0 <= j < k ==> queue[i].distance <= queue[j].distance
    {
      if Greater(queue[i], queue[k]) {
        i := k;
      }
    }
  }

  /** `pop()`: the queue without its entry at `i`. */
  function RemoveAt(queue: seq<VertexDistancePair>, i: nat): (r: seq<VertexDistancePair>)
    requires i < |queue|
    ensures |r| == |queue| - 1
    ensures forall x :: x in queue && x != queue[i] ==> x in r
    ensures forall x :: x in r ==> x in queue
    ensures multiset(r) == multiset(queue) - multiset{queue[i]}
  {
    var r := queue[..i] + queue[i + 1..];
    assert queue == queue[..i] + [queue[i]] + queue[i + 1..];
    assert forall k :: 0 <= k < |queue| && k != i ==> queue[k] == r[if k < i then k else k - 1];
    r
  }

  /** The distance vector is made of walk weights and starts from the source. */
  ghost predicate DistancesSound(c: Graph, s: nat, d: seq<nat>)
  {
    && |d| == |c| && s < |c| && d[s] == 0
    && (forall v :: 0 <= v < |d| ==> d[v] <= Infinity)
    && (forall v :: 0 <= v < |d| && d[v] < Infinity ==> Reaches(c, s, v, d[v]))
  }

  /** Every queued pair names a vertex, is no better than its vertex's entry, and is a walk weight. */
  ghost predicate QueueSound(c: Graph, s: nat, d: seq<nat>, queue: seq<VertexDistancePair>)
    requires |d| == |c|
  {
    forall x :: x in queue ==>
      x.vertexIndex < |c| && d[x.vertexIndex] <= x.distance && Reaches(c, s, x.vertexIndex, x.distance)
  }

  /** Vertex `u` is unreached, waits in the queue with its current distance, or is relaxed. */
  ghost predicate Pending(c: Graph, d: seq<nat>, queue: seq<VertexDistancePair>, u: nat)
    requires WellFormed(c) && u < |c| == |d|
  {
    d[u] == Infinity || VertexDistancePair(u, d[u]) in queue || RelaxedAt(c, d, u)
  }

  /**
   * The inner loop of dijkstra_shortest_paths: relax every edge out of `u`, reached at
   * distance `du`, in ascending key order as `std::map` iterates. An entry is only ever
   * overwritten by a strictly smaller value, which is then queued.
   */
  method RelaxEdges(c: Graph, ghost s: nat, d0: seq<nat>, q0: seq<VertexDistancePair>, u: nat, du: nat)
    returns (d: seq<nat>, queue: seq<VertexDistancePair>)
    requires WellFormed(c) && DistancesSound(c, s, d0) && QueueSound(c, s, d0, q0)
    requires u < |c| && d0[u] <= du && Reaches(c, s, u, du)
    ensures DistancesSound(c, s, d) && QueueSound(c, s, d, queue)
    ensures forall v :: 0 <= v < |d| ==> d[v] <= d0[v]
    ensures forall v :: 0 <= v < |d| && d[v] < d0[v] ==>
      v in c[u] && d[v] == du + c[u][v] && VertexDistancePair(v, d[v]) in queue
    ensures forall v :: v in c[u] ==> d[v] <= du + c[u][v]
    ensures forall x :: x in q0 ==> x in queue
    ensures |q0| <= |queue| && Sum(d) + (|queue| - |q0|) <= Sum(d0)
  {
    d, queue := d0, q0;
    ghost var pu :| IsWalk(c, pu, s, u) && WalkWeight(c, pu) == du;
    var remaining: set<nat> := c[u].Keys;
    while remaining != {}
      invariant remaining <= c[u].Keys
      invariant RelaxProgress(c, s, d0, q0, u, du, d, queue, remaining)
      decreases remaining
    {
      ghost var least := Minimum(remaining);
      var v :| v in remaining && forall k :: k in remaining ==> v <= k;
      d, queue := RelaxEdge(c, s, d0, q0, u, du, pu, d, queue, remaining, v);
      remaining := remaining - {v};
    }
    RelaxDone(c, s, d0, q0, u, du, d, queue);
  }

  /** One step of the inner loop: relax the edge `u -> v`, lowering and queueing `v` when the edge improves it. */
  method RelaxEdge(c: Graph, ghost s: nat, ghost d0: seq<nat>, ghost q0: seq<VertexDistancePair>, u: nat, du: nat,
                   ghost pu: seq<nat>, d: seq<nat>, queue: seq<VertexDistancePair>, ghost remaining: set<nat>, v: nat)
    returns (d': seq<nat>, queue': seq<VertexDistancePair>)
    requires WellFormed(c) && u < |c| && IsWalk(c, pu, s, u) && WalkWeight(c, pu) == du
    requires RelaxProgress(c, s, d0, q0, u, du, d, queue, remaining) && v in c[u]
    ensures RelaxProgress(c, s, d0, q0, u, du, d', queue', remaining - {v})
  {
    var newDistance := du + c[u][v];
    if newDistance < d[v] {
      d' := d[v := newDistance];
      queue' := queue + [VertexDistancePair(v, newDistance)];
      RelaxProgressLowered(c, s, d0, q0, u, du, pu, d, queue, remaining, v, d', queue');
    } else {
      d', queue' := d, queue;
      RelaxProgressKept(c, s, d0, q0, u, du, d, queue, remaining, v);
    }
  }

  lemma RelaxDone(c: Graph, s: nat, d0: seq<nat>, q0: seq<VertexDistancePair>, u: nat, du: nat,
                  d: seq<nat>, queue: seq<VertexDistancePair>)
    requires WellFormed(c) && u < |c| && RelaxProgress(c, s, d0, q0, u, du, d, queue, {})
    ensures DistancesSound(c, s, d) && QueueSound(c, s, d, queue)
    ensures forall v :: 0 <= v < |d| ==> d[v] <= d0[v]
    ensures forall v :: 0 <= v < |d| && d[v] < d0[v] ==>
      v in c[u] && d[v] == du + c[u][v] && VertexDistancePair(v, d[v]) in queue
    ensures forall v :: v in c[u] ==> d[v] <= du + c[u][v]
    ensures forall x :: x in q0 ==> x in queue
    ensures |q0| <= |queue| && Sum(d) + (|queue| - |q0|) <= Sum(d0)
  {
  }

  /** What the relaxation loop has achieved once every edge out of `u` to a target not in `remaining` is relaxed. */
  ghost predicate RelaxProgress(c: Graph, s: nat, d0: seq<nat>, q0: seq<VertexDistancePair>, u: nat, du: nat,
                                d: seq<nat>, queue: seq<VertexDistancePair>, remaining: set<nat>)
    requires WellFormed(c) && u < |c|
  {
    DistancesSound(c, s, d) && QueueSound(c, s, d, queue) && RelaxBookkeeping(c, d0, q0, u, du, d, queue, remaining)
  }

  /**
   * The part of the loop's progress about the entries and the queue themselves: entries only
   * go down, each lowered entry comes from an edge out of `u` and is queued, every edge to a
   * target not in `remaining` is relaxed, the queue only grows, and each push pays for a drop.
   */
  ghost predicate RelaxBookkeeping(c: Graph, d0: seq<nat>, q0: seq<VertexDistancePair>, u: nat, du: nat,
                                   d: seq<nat>, queue: seq<VertexDistancePair>, remaining: set<nat>)
    requires WellFormed(c) && u < |c|
  {
    && |d| == |c| && |d0| == |d|
    && (forall v :: 0 <= v < |d| ==> d[v] <= d0[v])
    && (forall v :: 0 <= v < |d| && d[v] < d0[v] ==>
          v in c[u] && d[v] == du + c[u][v] && VertexDistancePair(v, d[v]) in queue)
    && (forall v :: v in c[u] && v !in remaining ==> d[v] <= du + c[u][v])
    && (forall x :: x in q0 ==> x in queue)
    && |q0| <= |queue| && Sum(d) + (|queue| - |q0|) <= Sum(d0)
  }

  /** Lowering `v` through the edge `u -> v` and queueing it keeps the bookkeeping. */
  lemma LoweredBookkeeping(c: Graph, d0: seq<nat>, q0: seq<VertexDistancePair>, u: nat, du: nat,
                           d: seq<nat>, queue: seq<VertexDistancePair>, remaining: set<nat>, v: nat,
                           d': seq<nat>, queue': seq<VertexDistancePair>)
    requires WellFormed(c) && u < |c| && RelaxBookkeeping(c, d0, q0, u, du, d, queue, remaining)
    requires v in c[u] && du + c[u][v] < d[v]
    requires d' == d[v := du + c[u][v]] && queue' == queue + [VertexDistancePair(v, du + c[u][v])]
    ensures RelaxBookkeeping(c, d0, q0, u, du, d', queue', remaining - {v})
  {
    SumUpdate(d, v, du + c[u][v]);
    forall w | 0 <= w < |d'| && d'[w] < d0[w]
      ensures w in c[u] && d'[w] == du + c[u][w] && VertexDistancePair(w, d'[w]) in queue'
    {
      if w != v {
        assert VertexDistancePair(w, d[w]) in queue;
      }
    }
  }

  /** Relaxing an edge `u -> v` that lowers `v` keeps the loop's progress. */
  lemma RelaxProgressLowered(c: Graph, s: nat, d0: seq<nat>, q0: seq<VertexDistancePair>, u: nat, du: nat,
                             pu: seq<nat>, d: seq<nat>, queue: seq<VertexDistancePair>, remaining: set<nat>, v: nat,
                             d': seq<nat>, queue': seq<VertexDistancePair>)
    requires WellFormed(c) && u < |c| && IsWalk(c, pu, s, u) && WalkWeight(c, pu) == du
    requires RelaxProgress(c, s, d0, q0, u, du, d, queue, remaining) && v in c[u] && du + c[u][v] < d[v]
    requires d' == d[v := du + c[u][v]] && queue' == queue + [VertexDistancePair(v, du + c[u][v])]
    ensures RelaxProgress(c, s, d0, q0, u, du, d', queue', remaining - {v})
  {
    RelaxStepSound(c, s, d, queue, u, du, pu, v);
    LoweredBookkeeping(c, d0, q0, u, du, d, queue, remaining, v, d', queue');
  }

  /** Relaxing an edge `u -> v` that does not lower `v` keeps the loop's progress. */
  lemma RelaxProgressKept(c: Graph, s: nat, d0: seq<nat>, q0: seq<VertexDistancePair>, u: nat, du: nat,
                          d: seq<nat>, queue: seq<VertexDistancePair>, remaining: set<nat>, v: nat)
    requires WellFormed(c) && u < |c|
    requires RelaxProgress(c, s, d0, q0, u, du, d, queue, remaining) && v in c[u] && d[v] <= du + c[u][v]
    ensures RelaxProgress(c, s, d0, q0, u, du, d, queue, remaining - {v})
  {
  }

  /** Lowering `v` to `du + c[u][v]` and queueing it keeps the distances and the queue sound. */
  lemma RelaxStepSound(c: Graph, s: nat, d: seq<nat>, queue: seq<VertexDistancePair>,
                       u: nat, du: nat, pu: seq<nat>, v: nat)
    requires WellFormed(c) && DistancesSound(c, s, d) && QueueSound(c, s, d, queue)
    requires u < |c| && IsWalk(c, pu, s, u) && WalkWeight(c, pu) == du
    requires v in c[u] && du + c[u][v] < d[v]
    ensures DistancesSound(c, s, d[v := du + c[u][v]])
    ensures QueueSound(c, s, d[v := du + c[u][v]], queue + [VertexDistancePair(v, du + c[u][v])])
  {
    var nd := du + c[u][v];
    WalkExtend(c, pu, s, u, v);
    assert Reaches(c, s, v, nd);
    var d' := d[v := nd];
    forall x | x in queue + [VertexDistancePair(v, nd)]
      ensures x.vertexIndex < |c| && d'[x.vertexIndex] <= x.distance && Reaches(c, s, x.vertexIndex, x.distance)
    {
      if x != VertexDistancePair(v, nd) {
        assert x in queue;
      }
    }
  }

  /** After a pop and the relaxation of the popped vertex every vertex is pending again. */
  lemma PendingAfterRelax(c: Graph, d0: seq<nat>, q0: seq<VertexDistancePair>, top: VertexDistancePair,
                          q1: seq<VertexDistancePair>, d: seq<nat>, queue: seq<VertexDistancePair>)
    requires WellFormed(c) && |d0| == |c| == |d| && top.vertexIndex < |c|
    requires d0[top.vertexIndex] <= top.distance
    requires forall w :: 0 <= w < |c| ==> Pending(c, d0, q0, w)
    requires forall x :: x in q0 && x != top ==> x in q1
    requires forall v :: 0 <= v < |d| ==> d[v] <= d0[v]
    requires forall v :: 0 <= v < |d| && d[v] < d0[v] ==>
      v in c[top.vertexIndex] && d[v] == top.distance + c[top.vertexIndex][v] && VertexDistancePair(v, d[v]) in queue
    requires forall v :: v in c[top.vertexIndex] ==> d[v] <= top.distance + c[top.vertexIndex][v]
    requires forall x :: x in q1 ==> x in queue
    ensures forall w :: 0 <= w < |c| ==> Pending(c, d, queue, w)
  {
    var u, du := top.vertexIndex, top.distance;
    forall w | 0 <= w < |c| ensures Pending(c, d, queue, w) {
      assert Pending(c, d0, q0, w);
      if d[w] < d0[w] {
        assert VertexDistancePair(w, d[w]) in queue;
      } else if w == u && du == d0[u] {
        assert RelaxedAt(c, d, u);
      } else if VertexDistancePair(w, d0[w]) in q0 {
        assert VertexDistancePair(w, d0[w]) != top;
        assert VertexDistancePair(w, d[w]) in queue;
      } else if d0[w] < Infinity {
        assert RelaxedAt(c, d0, w);
        assert RelaxedAt(c, d, w);
      }
    }
  }

  /**
   * dijkstra_shortest_paths: one entry per vertex, 0 at the source, `Infinity` at the
   * vertices no walk reaches and at those whose lightest walk weighs at least `Infinity`, and
   * otherwise the weight of a lightest walk; on return
   * every edge out of a reached vertex satisfies the triangle inequality.
   */
  method DijkstraShortestPaths(c: Graph, s: nat) returns (d: seq<nat>)
    requires WellFormed(c) && s < |c|
    ensures ShortestFrom(c, s, d)
    ensures Relaxed(c, d)
  {
    var n := |c|;
    d := seq(n, _ => Infinity);
    var queue: seq<VertexDistancePair> := [];
    d := d[s := 0];
    queue := queue + [VertexDistancePair(s, 0)];
    assert IsWalk(c, [s], s, s) && WalkWeight(c, [s]) == 0;
    while queue != []
      invariant DistancesSound(c, s, d) && QueueSound(c, s, d, queue)
      invariant forall w :: 0 <= w < n ==> Pending(c, d, queue, w)
      decreases Sum(d), |queue|
    {
      var i := Top(queue);
      var top := queue[i];
      var rest := RemoveAt(queue, i);
      var d', queue' := RelaxEdges(c, s, d, rest, top.vertexIndex, top.distance);
      PendingAfterRelax(c, d, queue, top, rest, d', queue');
      d, queue := d', queue';
    }
    assert Relaxed(c, d) by {
      forall u | 0 <= u < n && d[u] < Infinity ensures RelaxedAt(c, d, u) {
        assert Pending(c, d, queue, u);
      }
    }
    forall v, p | 0 <= v < n && IsWalk(c, p, s, v) ensures d[v] <= WalkWeight(c, p) {
      RelaxedBoundsWalks(c, s, d, p, v);
    }
  }

  // ---------------------------------------------------------------------------
  // The all-pairs matrix, stored row-major in one vector of n * n entries
  // ---------------------------------------------------------------------------

  lemma MulStep(n: nat, i: nat)
    requires i < n
    ensures i * n + n <= n * n
  {
    assert i * n + n == (i + 1) * n;
    assert (i + 1) * n <= n * n by {
      var k := n - (i + 1);
      assert n * n == (i + 1) * n + k * n;
    }
  }

  /** Row `i` of an `n * n` row-major matrix. */
  function Row(all: seq<nat>, n: nat, i: nat): (r: seq<nat>)
    requires |all| == n * n && i < n
    ensures i * n + n <= |all|
    ensures |r| == n && forall j :: 0 <= j < n ==> r[j] == all[i * n + j]
  {
    MulStep(n, i);
    all[i * n .. i * n + n]
  }

  /**
   * all_pairs_shortest_paths: `n * n` entries, row `i` being the shortest distances from
   * vertex `i`, so the diagonal is 0.
   */
  method AllPairsShortestPaths(c: Graph) returns (all: seq<nat>)
    requires WellFormed(c)
    ensures |all| == |c| * |c|
    ensures forall i :: 0 <= i < |c| ==> ShortestFrom(c, i, Row(all, |c|, i))
    ensures forall i :: 0 <= i < |c| ==> Row(all, |c|, i)[i] == 0
  {
    var n := |c|;
    all := seq(n * n, _ => Infinity);
    for source := 0 to n
      invariant |all| == n * n
      invariant forall i :: 0 <= i < source ==> ShortestFrom(c, i, Row(all, n, i))
    {
      var local := DijkstraShortestPaths(c, source);
      var offset := source * n;
      MulStep(n, source);
      ghost var before := all;
      for target := 0 to n
        invariant |all| == n * n
        invariant all[..offset] == before[..offset]
        invariant forall t :: 0 <= t < target ==> all[offset + t] == local[t]
      {
        all := all[offset + target := local[target]];
      }
      assert Row(all, n, source) == local;
      forall i | 0 <= i < source ensures ShortestFrom(c, i, Row(all, n, i)) {
        RowUnchanged(all, before, n, i, source);
      }
    }
  }

  lemma RowsBefore(n: nat, i: nat, source: nat)
    requires i < source
    ensures i * n + n <= source * n
  {
    var k := source - (i + 1);
    assert source * n == (i + 1) * n + k * n;
  }

  lemma SliceUnchanged(a: seq<nat>, b: seq<nat>, lo: nat, hi: nat, prefix: nat)
    requires lo <= hi <= prefix <= |a| == |b| && a[..prefix] == b[..prefix]
    ensures a[lo..hi] == b[lo..hi]
  {
    assert a[lo..hi] == a[..prefix][lo..hi];
  }

  /** Rows wholly before row `source` are untouched by writes at and after `source * n`. */
  lemma RowUnchanged(all: seq<nat>, before: seq<nat>, n: nat, i: nat, source: nat)
    requires |all| == |before| == n * n && i < source < n
    requires all[..source * n] == before[..source * n]
    ensures Row(all, n, i) == Row(before, n, i)
  {
    RowsBefore(n, i, source);
    MulStep(n, source);
    SliceUnchanged(all, before, i * n, i * n + n, source * n);
  }

  // ---------------------------------------------------------------------------
  // calculate_largest_smallest_path
  // ---------------------------------------------------------------------------

  /**
   * The pair the scan holds for column `j` after the sources `0 .. rows - 1`: it starts as
   * `(j, 0)` and is replaced by `(source, entry)` whenever the entry is strictly larger.
   */
  function Furthest(all: seq<nat>, n: nat, j: nat, rows: nat): VertexDistancePair
    requires |all| == n * n && j < n && rows <= n
  {
    if rows == 0 then VertexDistancePair(j, 0)
    else
      var previous := Furthest(all, n, j, rows - 1);
      var current := Row(all, n, rows - 1)[j];
      if current > previous.distance then VertexDistancePair(rows - 1, current) else previous
  }

  /**
   * The scan yields the maximum of 0 and the column, found at the lowest source index that
   * attains it, or `(j, 0)` when no entry of the column exceeds 0.
   */
  lemma {:induction false} FurthestIsFirstMaximum(all: seq<nat>, n: nat, j: nat, rows: nat)
    requires |all| == n * n && j < n && rows <= n
    ensures var r := Furthest(all, n, j, rows);
      && (forall i :: 0 <= i < rows ==> Row(all, n, i)[j] <= r.distance)
      && ((r.distance == 0 && r.vertexIndex == j) ||
          (0 < r.distance && r.vertexIndex < rows && Row(all, n, r.vertexIndex)[j] == r.distance &&
           forall i :: 0 <= i < r.vertexIndex ==> Row(all, n, i)[j] < r.distance))
  {
    if rows > 0 {
      FurthestIsFirstMaximum(all, n, j, rows - 1);
    }
  }

  /** calculate_largest_smallest_path: one scan result per column of the `n * n` matrix. */
  method CalculateLargestSmallestPath(all: seq<nat>, n: nat) returns (furthest: seq<VertexDistancePair>)
    requires |all| == n * n
    ensures |furthest| == n && forall j :: 0 <= j < n ==> furthest[j] == Furthest(all, n, j, n)
  {
    furthest := seq(n, _ => VertexDistancePair(0, 0));
    for vertex := 0 to n
      invariant |furthest| == n
      invariant forall j :: 0 <= j < vertex ==> furthest[j] == VertexDistancePair(j, 0)
    {
      furthest := furthest[vertex := VertexDistancePair(vertex, 0)];
    }
    for source := 0 to n
      invariant |furthest| == n
      invariant forall j :: 0 <= j < n ==> furthest[j] == Furthest(all, n, j, source)
    {
      var offset := source * n;
      for target := 0 to n
        invariant |furthest| == n
        invariant forall j :: 0 <= j < target ==> furthest[j] == Furthest(all, n, j, source + 1)
        invariant forall j :: target <= j < n ==> furthest[j] == Furthest(all, n, j, source)
      {
        MulStep(n, source);
        var currentDistance := all[offset + target];
        assert currentDistance == Row(all, n, source)[target];
        if currentDistance > furthest[target].distance {
          furthest := furthest[target := VertexDistancePair(source, currentDistance)];
        }
      }
    }
  }

  /** The pair returned by do_work_serial. */
  datatype DistancesAndFurthestVertex = DistancesAndFurthestVertex(
    allPairsShortestPaths: seq<nat>, furthestReachingVertex: seq<VertexDistancePair>)

  /**
   * do_work_serial: the all-pairs matrix of the graph together with the column scan over it,
   * for `n` the number of vertices.
   */
  method DoWorkSerial(c: Graph) returns (r: DistancesAndFurthestVertex)
    requires WellFormed(c)
    ensures |r.allPairsShortestPaths| == |c| * |c|
    ensures forall i :: 0 <= i < |c| ==> ShortestFrom(c, i, Row(r.allPairsShortestPaths, |c|, i))
    ensures |r.furthestReachingVertex| == |c|
    ensures forall j :: 0 <= j < |c| ==>
      r.furthestReachingVertex[j] == Furthest(r.allPairsShortestPaths, |c|, j, |c|)
  {
    var all := AllPairsShortestPaths(c);
    var furthest := CalculateLargestSmallestPath(all, |c|);
    r := DistancesAndFurthestVertex(all, furthest);
  }

  /** In a graph without edges, the only vertex a source reaches is itself. */
  lemma EdgelessReachesOnlyItself(c: Graph, s: nat, d: seq<nat>, v: nat)
    requires forall u :: 0 <= u < |c| ==> c[u] == map[]
    requires ShortestFrom(c, s, d) && v < |d| && v != s
    ensures d[v] == Infinity
  {
  }

  /**
   * do_work_serial on three vertices and no edges: every source leaves the other two at
   * `UINT_MAX`, so sources 1 and 2 tie on column 0 and the strict `>` of the scan reports
   * source 1; no source is strictly further than every other.
   */
  method UnreachableSourcesTie() returns (r: DistancesAndFurthestVertex)
    ensures |r.allPairsShortestPaths| == 9 && |r.furthestReachingVertex| == 3
    ensures r.furthestReachingVertex[0] == VertexDistancePair(1, Infinity)
    ensures r.allPairsShortestPaths[2 * 3 + 0] == Infinity
  {
    var c: Graph := [map[], map[], map[]];
    r := DoWorkSerial(c);
    var all := r.allPairsShortestPaths;
    EdgelessReachesOnlyItself(c, 1, Row(all, 3, 1), 0);
    EdgelessReachesOnlyItself(c, 2, Row(all, 3, 2), 0);
    assert Row(all, 3, 0)[0] == 0;
    assert Furthest(all, 3, 0, 1) == VertexDistancePair(0, 0);
    assert Furthest(all, 3, 0, 2) == VertexDistancePair(1, Infinity);
  }
}
