/** What the level-lines distance transform
    (dahu/level_lines_distance_transform.py) computes, stated on values.
    The signal F is propagated exactly as in the Dahu transform; each
    reached cell records its step, the absolute change of F from the
    cell it was reached from, and its distance D: the key of that cell
    plus the step.

    The key of a cell is the priority its queue entry carries. As
    written, a reached cell is pushed with its step, so the key is the
    step and D is the sum of two consecutive steps; pushing D instead
    (`cumulative`) makes the key D and D the total variation of F along
    the propagation path. Both readings are modelled, selected by
    `cumulative`. */
module LevelSpec {
  import opened Utils
  import opened Queue
  import opened Propagation
  import DahuSpec

  /** The marker of a cell not yet reached: the largest uint32. */
  const UNSEEN: int := 0xFFFF_FFFF

  /** The largest sample of a 16-bit image. */
  const MAX_SAMPLE: int := 0xFFFF

  /** Every sample of both images lies in [0, MAX_SAMPLE]. */
  ghost predicate Samples(m: seq<seq<int>>, M: seq<seq<int>>)
  {
    forall p: Cell :: InDomain(Dims(m), p.l, p.c) ==> 0 <= At(m, p) && At(M, p) <= MAX_SAMPLE
  }

  /** What the propagation has written or pushed for each reached cell:
      the signal F, the step (the priority `diff` it was pushed with,
      0 for a seed) and the distance D. */
  datatype Levels = Levels(signal: map<Cell, int>, step: map<Cell, nat>, dist: map<Cell, nat>)

  predicate Known(v: Levels, p: Cell)
  {
    p in v.signal && p in v.step && p in v.dist
  }

  /** The priority the queue entry of `p` carries. */
  function Key(v: Levels, p: Cell, cumulative: bool): nat
    requires Known(v, p)
  {
    if cumulative then v.dist[p] else v.step[p]
  }

  /** `p` has values and its key is `d`. */
  predicate HasKey(v: Levels, p: Cell, d: nat, cumulative: bool)
  {
    Known(v, p) && Key(v, p, cumulative) == d
  }

  /** The values the seed loop writes: D = 0 and F = m at every seed,
      which is pushed with priority 0. */
  ghost function Start(m: seq<seq<int>>, seeds: set<Cell>): (v: Levels)
    ensures v.signal.Keys == seeds && v.step.Keys == seeds && v.dist.Keys == seeds
  {
    var zero := map s | s in seeds :: 0;
    Levels(map s | s in seeds :: At(m, s), zero, zero)
  }

  /** The values after `n`, whose interval is [lo, hi], is reached from
      `p`: F at `n` is F at `p` clamped into the interval, the step is
      the absolute change of F, and D is the key of `p` plus the step. */
  function Reach(v: Levels, p: Cell, n: Cell, lo: int, hi: int, cumulative: bool): (w: Levels)
    requires Known(v, p)
    ensures Known(w, n) && (p != n ==> Known(w, p) && Key(w, p, cumulative) == Key(v, p, cumulative))
    ensures forall q :: q != n && Known(v, q) ==> Known(w, q) && Key(w, q, cumulative) == Key(v, q, cumulative)
    ensures lo <= hi ==> lo <= w.signal[n] <= hi
    ensures w.step[n] == Abs(w.signal[n] - v.signal[p]) && w.dist[n] >= Key(v, p, cumulative)
  {
    var f := Clamp(v.signal[p], lo, hi);
    var step := Abs(v.signal[p] - f);
    Levels(v.signal[n := f], v.step[n := step], v.dist[n := Key(v, p, cumulative) + step])
  }

  /** The values obtained by starting the seeds and then replaying the
      visits of `trail`, each from the cell it was reached from. */
  ghost function Replay(m: seq<seq<int>>, M: seq<seq<int>>, seeds: set<Cell>, trail: Visits, cumulative: bool): Levels
    decreases trail
  {
    match trail
    case NoVisit => Start(m, seeds)
    case Then(earlier, from, cell) =>
      var prev := Replay(m, M, seeds, earlier, cumulative);
      if Known(prev, from) then Reach(prev, from, cell, At(m, cell), At(M, cell), cumulative) else prev
  }

  /** The values are given exactly on the visited cells. */
  predicate Keyed(visited: set<Cell>, v: Levels)
  {
    v.signal.Keys == visited && v.step.Keys == visited && v.dist.Keys == visited
  }

  /** On every visited cell the signal lies in the cell's interval [m, M]. */
  ghost predicate InIntervals(m: seq<seq<int>>, M: seq<seq<int>>, visited: set<Cell>, v: Levels)
    requires Keyed(visited, v)
  {
    forall p {:trigger p in visited} :: p in visited ==>
      InDomain(Dims(m), p.l, p.c) && At(m, p) <= v.signal[p] <= At(M, p)
  }

  /** At a seed, F is the seed's own value m and both the step and D are 0. */
  ghost predicate SeedValues(m: seq<seq<int>>, seeds: set<Cell>, visited: set<Cell>, v: Levels)
    requires Keyed(visited, v)
  {
    forall s {:trigger s in seeds} :: s in seeds ==>
      s in visited && v.signal[s] == At(m, s) && v.step[s] == 0 && v.dist[s] == 0
  }

  /** A cell reached from its parent holds the parent's signal clamped
      into its own interval, its step is the absolute change of the
      signal, and D is the parent's key plus the step. */
  ghost predicate Links(
    m: seq<seq<int>>, M: seq<seq<int>>, visited: set<Cell>, parent: map<Cell, Cell>, v: Levels, cumulative: bool)
    requires Keyed(visited, v)
  {
    forall n {:trigger n in parent} :: n in parent ==>
      && n in visited && parent[n] in visited
      && v.signal[n] == Clamp(v.signal[parent[n]], At(m, n), At(M, n))
      && v.step[n] == Abs(v.signal[parent[n]] - v.signal[n])
      && v.dist[n] == Key(v, parent[n], cumulative) + v.step[n]
  }

  /** The bound on D that keeps it below UNSEEN: as written D is the sum
      of two steps; with the cumulative push it grows by at most one
      step per visited cell. */
  function Bound(visited: set<Cell>, cumulative: bool): int
  {
    if cumulative then MAX_SAMPLE * |visited| else 2 * MAX_SAMPLE
  }

  /** Steps are at most MAX_SAMPLE and D is within its bound. */
  ghost predicate Bounded(visited: set<Cell>, v: Levels, cumulative: bool)
    requires Keyed(visited, v)
  {
    forall p {:trigger p in visited} :: p in visited ==>
      v.step[p] <= MAX_SAMPLE && v.dist[p] <= Bound(visited, cumulative)
  }

  /** The relations the propagation establishes between the values. */
  ghost predicate LevelTree(
    m: seq<seq<int>>, M: seq<seq<int>>, seeds: set<Cell>, visited: set<Cell>, parent: map<Cell, Cell>, v: Levels,
    cumulative: bool)
  {
    && Keyed(visited, v)
    && InIntervals(m, M, visited, v)
    && SeedValues(m, seeds, visited, v)
    && Links(m, M, visited, parent, v, cumulative)
    && Bounded(visited, v, cumulative)
  }

  /** Replaying a visit structure gives values to exactly the visited
      cells. */
  lemma {:induction false} ReplayKeys(
    m: seq<seq<int>>, M: seq<seq<int>>, seeds: set<Cell>, visited: set<Cell>, trail: Visits, cumulative: bool)
    requires Forest(seeds, visited, trail)
    ensures Keyed(visited, Replay(m, M, seeds, trail, cumulative))
    decreases trail
  {
    match trail
    case NoVisit =>
    case Then(earlier, from, cell) =>
      ReplayKeys(m, M, seeds, visited - {cell}, earlier, cumulative);
  }

  /** Starting one more seed. */
  lemma StartAdd(m: seq<seq<int>>, seeds: set<Cell>, s: Cell)
    ensures var v := Start(m, seeds);
      Start(m, seeds + {s}) == Levels(v.signal[s := At(m, s)], v.step[s := 0], v.dist[s := 0])
  {
    var v, w := Start(m, seeds), Start(m, seeds + {s});
    assert w.signal == v.signal[s := At(m, s)];
    assert w.step == v.step[s := 0];
  }

  /** Reaching `n` from `cur` keeps the signal in the intervals. */
  lemma IntervalsVisit(
    m: seq<seq<int>>, M: seq<seq<int>>, visited: set<Cell>, v: Levels, cur: Cell, n: Cell, cumulative: bool)
    requires IsInterval(m, M) && Keyed(visited, v) && InIntervals(m, M, visited, v)
    requires cur in visited && InDomain(Dims(m), n.l, n.c)
    ensures Keyed(visited + {n}, Reach(v, cur, n, At(m, n), At(M, n), cumulative))
    ensures InIntervals(m, M, visited + {n}, Reach(v, cur, n, At(m, n), At(M, n), cumulative))
  {
    var w := Reach(v, cur, n, At(m, n), At(M, n), cumulative);
    forall p | p in visited + {n}
      ensures InDomain(Dims(m), p.l, p.c) && At(m, p) <= w.signal[p] <= At(M, p)
    {
      if p != n {
        assert w.signal[p] == v.signal[p];
      }
    }
  }

  /** Reaching a non-seed `n` keeps the seed values. */
  lemma SeedsVisit(
    m: seq<seq<int>>, M: seq<seq<int>>, seeds: set<Cell>, visited: set<Cell>, v: Levels, cur: Cell, n: Cell,
    cumulative: bool)
    requires Keyed(visited, v) && SeedValues(m, seeds, visited, v)
    requires cur in visited && n !in visited
    ensures Keyed(visited + {n}, Reach(v, cur, n, At(m, n), At(M, n), cumulative))
    ensures SeedValues(m, seeds, visited + {n}, Reach(v, cur, n, At(m, n), At(M, n), cumulative))
  {
  }

  /** Reaching `n` from `cur` adds the link `n -> cur` and keeps the
      others. */
  lemma LinksVisit(
    m: seq<seq<int>>, M: seq<seq<int>>, visited: set<Cell>, parent: map<Cell, Cell>, v: Levels, cur: Cell, n: Cell,
    cumulative: bool)
    requires Keyed(visited, v) && Links(m, M, visited, parent, v, cumulative)
    requires cur in visited && n !in visited
    ensures Keyed(visited + {n}, Reach(v, cur, n, At(m, n), At(M, n), cumulative))
    ensures Links(m, M, visited + {n}, parent[n := cur], Reach(v, cur, n, At(m, n), At(M, n), cumulative), cumulative)
  {
    var w, links := Reach(v, cur, n, At(m, n), At(M, n), cumulative), parent[n := cur];
    forall k | k in links
      ensures k in visited + {n} && links[k] in visited + {n}
      ensures w.signal[k] == Clamp(w.signal[links[k]], At(m, k), At(M, k))
      ensures w.step[k] == Abs(w.signal[links[k]] - w.signal[k])
      ensures w.dist[k] == Key(w, links[k], cumulative) + w.step[k]
    {
      if k != n {
        assert parent[k] != n;
        assert Key(w, parent[k], cumulative) == Key(v, parent[k], cumulative);
      }
    }
  }

  /** Reaching `n` from `cur` keeps the steps and D within their bounds. */
  lemma BoundedVisit(
    m: seq<seq<int>>, M: seq<seq<int>>, visited: set<Cell>, v: Levels, cur: Cell, n: Cell, cumulative: bool)
    requires IsInterval(m, M) && Samples(m, M)
    requires Keyed(visited, v) && InIntervals(m, M, visited, v) && Bounded(visited, v, cumulative)
    requires cur in visited && n !in visited && InDomain(Dims(m), n.l, n.c)
    ensures Keyed(visited + {n}, Reach(v, cur, n, At(m, n), At(M, n), cumulative))
    ensures Bounded(visited + {n}, Reach(v, cur, n, At(m, n), At(M, n), cumulative), cumulative)
  {
    var w := Reach(v, cur, n, At(m, n), At(M, n), cumulative);
    assert |visited + {n}| == |visited| + 1;
    assert Bound(visited, cumulative) <= Bound(visited + {n}, cumulative);
    forall p | p in visited + {n}
      ensures w.step[p] <= MAX_SAMPLE && w.dist[p] <= Bound(visited + {n}, cumulative)
    {
      if p != n {
        assert w.step[p] == v.step[p] && w.dist[p] == v.dist[p];
      }
    }
  }

  /** Reaching `n` from `cur` keeps the relations: they hold of the
      visited cells with `n` added (`visited'`), the parent links with
      `n -> cur` added (`parent'`), and the values with those of `n`
      written (`v'`). */
  lemma TreeVisit(
    m: seq<seq<int>>, M: seq<seq<int>>, seeds: set<Cell>, visited: set<Cell>, parent: map<Cell, Cell>, v: Levels,
    cur: Cell, n: Cell, cumulative: bool, visited': set<Cell>, parent': map<Cell, Cell>, v': Levels)
    requires IsInterval(m, M) && Samples(m, M) && LevelTree(m, M, seeds, visited, parent, v, cumulative)
    requires cur in visited && n !in visited && InDomain(Dims(m), n.l, n.c)
    requires visited' == visited + {n} && parent' == parent[n := cur]
    requires v' == Reach(v, cur, n, At(m, n), At(M, n), cumulative)
    ensures LevelTree(m, M, seeds, visited', parent', v', cumulative)
  {
    IntervalsVisit(m, M, visited, v, cur, n, cumulative);
    SeedsVisit(m, M, seeds, visited, v, cur, n, cumulative);
    LinksVisit(m, M, visited, parent, v, cur, n, cumulative);
    BoundedVisit(m, M, visited, v, cur, n, cumulative);
  }

  /** The seeds alone, freshly started, satisfy the relations. */
  lemma TreeStart(m: seq<seq<int>>, M: seq<seq<int>>, seeds: set<Cell>, cumulative: bool)
    requires forall s :: s in seeds ==> InDomain(Dims(m), s.l, s.c)
    requires IsInterval(m, M) && Samples(m, M)
    ensures LevelTree(m, M, seeds, seeds, map[], Start(m, seeds), cumulative)
  {
  }

  /** One more visit, replayed, keeps the relations. */
  lemma ReplayStep(
    m: seq<seq<int>>, M: seq<seq<int>>, seeds: set<Cell>, visited: set<Cell>, trail: Visits, cumulative: bool)
    requires IsInterval(m, M) && Samples(m, M) && trail.Then? && Forest(seeds, visited, trail)
    requires InDomain(Dims(m), trail.cell.l, trail.cell.c)
    requires var before := visited - {trail.cell};
      LevelTree(m, M, seeds, before, Parents(trail.earlier), Replay(m, M, seeds, trail.earlier, cumulative), cumulative)
    ensures LevelTree(m, M, seeds, visited, Parents(trail), Replay(m, M, seeds, trail, cumulative), cumulative)
  {
    var before := visited - {trail.cell};
    assert before + {trail.cell} == visited;
    TreeVisit(m, M, seeds, before, Parents(trail.earlier), Replay(m, M, seeds, trail.earlier, cumulative),
              trail.from, trail.cell, cumulative, visited, Parents(trail), Replay(m, M, seeds, trail, cumulative));
  }

  /** The values a propagation writes, replayed from its visits,
      satisfy the level-lines relations with the parent of each visited
      cell. */
  lemma {:induction false} ReplayIsTree(
    m: seq<seq<int>>, M: seq<seq<int>>, seeds: set<Cell>, visited: set<Cell>, trail: Visits, cumulative: bool)
    requires IsInterval(m, M) && Samples(m, M) && Forest(seeds, visited, trail)
    requires forall p :: p in visited ==> InDomain(Dims(m), p.l, p.c)
    ensures LevelTree(m, M, seeds, visited, Parents(trail), Replay(m, M, seeds, trail, cumulative), cumulative)
    decreases trail
  {
    match trail
    case NoVisit =>
      TreeStart(m, M, seeds, cumulative);
    case Then(earlier, from, cell) =>
      ReplayIsTree(m, M, seeds, visited - {cell}, earlier, cumulative);
      ReplayStep(m, M, seeds, visited, trail, cumulative);
  }

  /** Every queue entry is for a cell with values, and carries that
      cell's key: the step as written, D with the cumulative push. */
  ghost predicate Prioritised(pending: multiset<Entry>, v: Levels, cumulative: bool)
  {
    forall e :: e in pending ==> Known(v, e.cell) && e.priority == Key(v, e.cell, cumulative)
  }

  /** Starting one more seed and pushing it with priority 0. */
  lemma PrioritisedSeed(m: seq<seq<int>>, pending: multiset<Entry>, seeds: set<Cell>, s: Cell, cumulative: bool)
    requires Prioritised(pending, Start(m, seeds), cumulative)
    ensures Prioritised(pending + multiset{Entry(s, 0)}, Start(m, seeds + {s}), cumulative)
  {
  }

  /** Reaching the unvisited `n` and pushing it with its key keeps every
      entry's priority its cell's key. */
  lemma PrioritisedVisit(
    pending: multiset<Entry>, visited: set<Cell>, v: Levels, cur: Cell, n: Cell, lo: int, hi: int, cumulative: bool)
    requires Prioritised(pending, v, cumulative) && WithinVisited(pending, visited)
    requires Known(v, cur) && n !in visited
    ensures var w := Reach(v, cur, n, lo, hi, cumulative);
      Prioritised(pending + multiset{Entry(n, Key(w, n, cumulative))}, w, cumulative)
  {
    var w := Reach(v, cur, n, lo, hi, cumulative);
    forall e | e in pending
      ensures Known(w, e.cell) && e.priority == Key(w, e.cell, cumulative)
    {
      assert e.cell != n;
    }
  }

  /** Popping a pending entry keeps the others, and the priority popped
      (`d`) is the key of the popped cell. */
  lemma PrioritisedPop(pending: multiset<Entry>, v: Levels, cumulative: bool, e: Entry)
    requires Prioritised(pending, v, cumulative) && e in pending
    ensures Known(v, e.cell) && e.priority == Key(v, e.cell, cumulative)
    ensures Prioritised(pending - multiset{e}, v, cumulative)
  {
    forall x | x in pending - multiset{e}
      ensures Known(v, x.cell) && x.priority == Key(v, x.cell, cumulative)
    {
      assert x in pending;
    }
  }

  /** Reaching the unvisited `n` from a visited cell gives `n` a D
      below UNSEEN, on a grid whose D values fit. */
  lemma VisitFits(
    m: seq<seq<int>>, M: seq<seq<int>>, seeds: set<Cell>, visited: set<Cell>, trail: Visits, cur: Cell, n: Cell,
    cumulative: bool)
    requires IsInterval(m, M) && Samples(m, M) && Fits(Dims(m), cumulative) && Forest(seeds, visited, trail)
    requires forall p :: p in visited ==> InDomain(Dims(m), p.l, p.c)
    requires cur in visited && n !in visited && InDomain(Dims(m), n.l, n.c)
    ensures var v := Replay(m, M, seeds, trail, cumulative);
      Known(v, cur) && Reach(v, cur, n, At(m, n), At(M, n), cumulative).dist[n] < UNSEEN
  {
    var v := Replay(m, M, seeds, trail, cumulative);
    ReplayIsTree(m, M, seeds, visited, trail, cumulative);
    BoundedVisit(m, M, visited, v, cur, n, cumulative);
    assert forall p :: p in visited + {n} ==> InDomain(Dims(m), p.l, p.c);
    BoundFits(Dims(m), visited + {n}, cumulative);
  }

  /** Replaying one more visit, of `n` from a cell `cur` that has
      values, reaches `n` from `cur`. */
  lemma ReplayThen(
    m: seq<seq<int>>, M: seq<seq<int>>, seeds: set<Cell>, trail: Visits, cur: Cell, n: Cell, cumulative: bool)
    requires Known(Replay(m, M, seeds, trail, cumulative), cur)
    ensures Replay(m, M, seeds, Then(trail, cur, n), cumulative) ==
      Reach(Replay(m, M, seeds, trail, cumulative), cur, n, At(m, n), At(M, n), cumulative)
  {
  }

  /** Reaching `n` from `cur` writes at `n` the signal `f` of `cur`
      clamped into the interval of `n`, the step from `cur`, and the
      key of `cur` plus that step. */
  lemma ReachWrites(
    v: Levels, cur: Cell, n: Cell, lo: int, hi: int, cumulative: bool, f: int, step: nat, dist: nat)
    requires Known(v, cur) && cur != n
    requires f == Clamp(v.signal[cur], lo, hi) && step == Abs(v.signal[cur] - f)
    requires dist == Key(v, cur, cumulative) + step
    ensures var w := Reach(v, cur, n, lo, hi, cumulative);
      && w == Levels(v.signal[n := f], v.step[n := step], v.dist[n := dist])
      && w.signal[cur] == v.signal[cur] && step == Abs(w.signal[cur] - w.signal[n])
  {
  }

  /** The visit of `n` from `cur`, on admissible inputs, keys the new
      cell below UNSEEN and changes the replay at `n` only: the signal
      clamped into `n`'s interval, the step its absolute change and the
      distance `cur`'s key plus that step. */
  lemma {:induction false} VisitStep(
    m: seq<seq<int>>, M: seq<seq<int>>, seeds: set<Cell>, visited: set<Cell>, trail: Visits, cur: Cell, n: Cell,
    cumulative: bool, d: nat, f: int, diff: nat)
    requires IsInterval(m, M) && Samples(m, M) && Fits(Dims(m), cumulative) && Forest(seeds, visited, trail)
    requires forall p :: p in visited ==> InDomain(Dims(m), p.l, p.c)
    requires cur in visited && n !in visited && InDomain(Dims(m), n.l, n.c)
    requires var v := Replay(m, M, seeds, trail, cumulative);
      && HasKey(v, cur, d, cumulative)
      && f == Clamp(v.signal[cur], At(m, n), At(M, n)) && diff == Abs(v.signal[cur] - f)
    ensures d + diff < UNSEEN
    ensures var v, w := Replay(m, M, seeds, trail, cumulative), Replay(m, M, seeds, Then(trail, cur, n), cumulative);
      && w.signal == v.signal[n := f] && w.step == v.step[n := diff] && w.dist == v.dist[n := d + diff]
    ensures var w := Replay(m, M, seeds, Then(trail, cur, n), cumulative);
      && Known(w, cur) && Known(w, n)
      && diff == Abs(w.signal[cur] - w.signal[n]) && diff == w.step[n] && w.dist[n] == d + diff
  {
    var v := Replay(m, M, seeds, trail, cumulative);
    assert d + diff == Key(v, cur, cumulative) + diff;
    ReachWrites(v, cur, n, At(m, n), At(M, n), cumulative, f, diff, d + diff);
    var w := Reach(v, cur, n, At(m, n), At(M, n), cumulative);
    assert w.dist[n] == d + diff;
    VisitFits(m, M, seeds, visited, trail, cur, n, cumulative);
    ReplayThen(m, M, seeds, trail, cur, n, cumulative);
  }

  /** A grid has no more distinct visited cells than cells. */
  lemma DomainBound(shape: (int, int), visited: set<Cell>)
    requires forall p :: p in visited ==> InDomain(shape, p.l, p.c)
    ensures |visited| <= |Domain(shape)|
  {
    var all := Domain(shape);
    assert visited <= all;
    assert |all - visited| + |visited| == |all|;
  }

  /** The values D can take stay below UNSEEN: as written at all times,
      with the cumulative push when MAX_SAMPLE times the number of cells
      is below UNSEEN. */
  ghost predicate Fits(shape: (int, int), cumulative: bool)
  {
    cumulative ==> MAX_SAMPLE * |Domain(shape)| < UNSEEN
  }

  /** Within a grid whose D values fit, every D bounded by `Bound` is
      below UNSEEN. */
  lemma BoundFits(shape: (int, int), visited: set<Cell>, cumulative: bool)
    requires Fits(shape, cumulative)
    requires forall p :: p in visited ==> InDomain(shape, p.l, p.c)
    ensures Bound(visited, cumulative) < UNSEEN
  {
    DomainBound(shape, visited);
  }

  /** The total variation of the signal along `path`: the sum of the
      absolute changes of the signal between consecutive cells. */
  ghost function Variation(signal: map<Cell, int>, path: seq<Cell>): nat
    requires forall i :: 0 <= i < |path| ==> path[i] in signal
    decreases |path|
  {
    if |path| <= 1 then 0
    else Variation(signal, path[..|path| - 1]) + Abs(signal[path[|path| - 1]] - signal[path[|path| - 2]])
  }

  /** Along `path`, the first cell has step and D equal to 0, and each
      further cell's step is the change of the signal from the cell
      before it and its D is that cell's key plus the step. */
  ghost predicate Chained(v: Levels, path: seq<Cell>, cumulative: bool)
  {
    && |path| >= 1
    && (forall i :: 0 <= i < |path| ==> Known(v, path[i]))
    && v.step[path[0]] == 0 && v.dist[path[0]] == 0
    && (forall i :: 0 < i < |path| ==>
          && v.step[path[i]] == Abs(v.signal[path[i - 1]] - v.signal[path[i]])
          && v.dist[path[i]] == Key(v, path[i - 1], cumulative) + v.step[path[i]])
  }

  /** With the cumulative push, D at the end of a chain is the total
      variation of the signal along the whole chain. */
  lemma {:induction false} ChainVariation(v: Levels, path: seq<Cell>)
    requires Chained(v, path, true)
    ensures v.dist[path[|path| - 1]] == Variation(v.signal, path)
    decreases |path|
  {
    var n := |path|;
    if n > 1 {
      var prefix := path[..n - 1];
      ChainedPrefix(v, path, true);
      ChainVariation(v, prefix);
      assert prefix[n - 2] == path[n - 2];
      assert v.dist[path[n - 1]] == v.dist[path[n - 2]] + Abs(v.signal[path[n - 2]] - v.signal[path[n - 1]]);
    }
  }

  /** Every non-empty prefix of a chain is a chain. */
  lemma ChainedPrefix(v: Levels, path: seq<Cell>, cumulative: bool)
    requires Chained(v, path, cumulative) && |path| > 1
    ensures Chained(v, path[..|path| - 1], cumulative)
  {
    var prefix := path[..|path| - 1];
    assert forall i :: 0 <= i < |prefix| ==> prefix[i] == path[i];
  }

  /** The last (at most) three cells of a path. */
  function LastLinks(path: seq<Cell>): (tail: seq<Cell>)
    ensures |path| >= 1 ==> 1 <= |tail| <= 3 && tail[|tail| - 1] == path[|path| - 1]
  {
    if |path| < 3 then path else path[|path| - 3..]
  }

  /** As written, D at the end of a chain counts the change of the
      signal over the chain's last two links only. */
  lemma ChainLastLinks(v: Levels, path: seq<Cell>)
    requires Chained(v, path, false)
    ensures v.dist[path[|path| - 1]] == Variation(v.signal, LastLinks(path))
  {
    var n, tail := |path|, LastLinks(path);
    if n >= 2 {
      assert tail[..|tail| - 1][..|tail| - 2] == tail[..|tail| - 2];
      if n == 2 {
        assert Variation(v.signal, tail[..1]) == 0;
      } else {
        assert tail == [path[n - 3], path[n - 2], path[n - 1]];
        assert Variation(v.signal, tail[..2]) == Abs(v.signal[path[n - 2]] - v.signal[path[n - 3]]);
      }
    }
  }

  /** A propagation path in a tree satisfying the level-lines relations
      is a chain: it starts at a seed and follows parent links. */
  lemma TreeChained(
    m: seq<seq<int>>, M: seq<seq<int>>, seeds: set<Cell>, visited: set<Cell>, parent: map<Cell, Cell>, v: Levels,
    cumulative: bool, path: seq<Cell>)
    requires LevelTree(m, M, seeds, visited, parent, v, cumulative) && SeedPath(seeds, visited, parent, path)
    ensures Chained(v, path, cumulative)
  {
    forall i | 0 < i < |path|
      ensures v.step[path[i]] == Abs(v.signal[path[i - 1]] - v.signal[path[i]])
      ensures v.dist[path[i]] == Key(v, path[i - 1], cumulative) + v.step[path[i]]
    {
      assert path[i] in parent && parent[path[i]] == path[i - 1];
    }
  }

  /** With the cumulative push, D at a visited cell is the total
      variation of the signal along the chain of 4-neighbours from a
      seed to that cell that the propagation took: a path cost. */
  lemma CumulativeIsVariation(
    m: seq<seq<int>>, M: seq<seq<int>>, seeds: set<Cell>, visited: set<Cell>, trail: Visits, p: Cell)
    returns (path: seq<Cell>)
    requires IsInterval(m, M) && Samples(m, M) && Forest(seeds, visited, trail)
    requires forall q :: q in visited ==> InDomain(Dims(m), q.l, q.c)
    requires p in visited
    ensures SeedPath(seeds, visited, Parents(trail), path) && path[|path| - 1] == p
    ensures var v := Replay(m, M, seeds, trail, true);
      && (forall i :: 0 <= i < |path| ==> path[i] in v.signal) && Known(v, p)
      && v.dist[p] == Variation(v.signal, path)
  {
    path := PathFromSeed(seeds, visited, trail, p);
    ReplayIsTree(m, M, seeds, visited, trail, true);
    TreeChained(m, M, seeds, visited, Parents(trail), Replay(m, M, seeds, trail, true), true, path);
    ChainVariation(Replay(m, M, seeds, trail, true), path);
  }

  /** As written, D at a visited cell is the variation of the signal
      over the last two links only of the chain from a seed to that
      cell: the step of its parent plus its own step. */
  lemma AsWrittenIsLastLinks(
    m: seq<seq<int>>, M: seq<seq<int>>, seeds: set<Cell>, visited: set<Cell>, trail: Visits, p: Cell)
    returns (path: seq<Cell>)
    requires IsInterval(m, M) && Samples(m, M) && Forest(seeds, visited, trail)
    requires forall q :: q in visited ==> InDomain(Dims(m), q.l, q.c)
    requires p in visited
    ensures SeedPath(seeds, visited, Parents(trail), path) && path[|path| - 1] == p
    ensures var v := Replay(m, M, seeds, trail, false);
      && (forall i :: 0 <= i < |path| ==> path[i] in v.signal) && Known(v, p)
      && v.dist[p] == Variation(v.signal, LastLinks(path))
  {
    path := PathFromSeed(seeds, visited, trail, p);
    ReplayIsTree(m, M, seeds, visited, trail, false);
    TreeChained(m, M, seeds, visited, Parents(trail), Replay(m, M, seeds, trail, false), false, path);
    ChainLastLinks(Replay(m, M, seeds, trail, false), path);
  }

  /** Where m = M = k on every visited cell, every visited cell holds
      the signal k, a step of 0 and a distance of 0. */
  lemma {:induction false} FlatLevels(
    m: seq<seq<int>>, M: seq<seq<int>>, seeds: set<Cell>, visited: set<Cell>, trail: Visits, k: int,
    cumulative: bool)
    requires Forest(seeds, visited, trail)
    requires forall q :: q in visited ==> At(m, q) == k && At(M, q) == k
    ensures var v := Replay(m, M, seeds, trail, cumulative);
      forall p :: p in visited ==> Known(v, p) && v.signal[p] == k && v.step[p] == 0 && v.dist[p] == 0
    decreases trail
  {
    match trail
    case NoVisit =>
    case Then(earlier, from, cell) =>
      FlatLevels(m, M, seeds, visited - {cell}, earlier, k, cumulative);
      assert from != cell && from in visited - {cell};
  }

  /** Both transforms propagate the same signal F: replaying the same
      visits gives the level-lines values and the Dahu values the same
      signal, whichever key the queue entries carry. */
  lemma {:induction false} SameSignal(
    m: seq<seq<int>>, M: seq<seq<int>>, seeds: set<Cell>, trail: Visits, cumulative: bool)
    ensures var v, w := Replay(m, M, seeds, trail, cumulative), DahuSpec.Replay(m, M, seeds, trail);
      && v.signal == w.signal
      && v.step.Keys == v.signal.Keys && v.dist.Keys == v.signal.Keys
      && w.low.Keys == w.signal.Keys && w.high.Keys == w.signal.Keys
    decreases trail
  {
    match trail
    case NoVisit =>
    case Then(earlier, from, cell) =>
      SameSignal(m, M, seeds, earlier, cumulative);
  }

  /** The 1 x 5 interval grid of the image row [0, 2, 4]: pixels at
      even columns, each inter-pixel interval spanning its two pixels. */
  const RowLow: seq<seq<int>> := [[0, 0, 2, 2, 4]]
  const RowHigh: seq<seq<int>> := [[0, 2, 2, 4, 4]]

  /** The visits from the seed (0, 0) along the row, one cell at a time. */
  const RowTrail: Visits :=
    Then(Then(Then(Then(NoVisit, Cell(0, 0), Cell(0, 1)), Cell(0, 1), Cell(0, 2)), Cell(0, 2), Cell(0, 3)),
         Cell(0, 3), Cell(0, 4))

  /** The row grid is an interval grid of 16-bit samples. */
  lemma RowIsInterval()
    ensures IsInterval(RowLow, RowHigh) && Samples(RowLow, RowHigh)
  {
    forall p: Cell | InDomain(Dims(RowLow), p.l, p.c)
      ensures At(RowLow, p) <= At(RowHigh, p) && 0 <= At(RowLow, p) && At(RowHigh, p) <= MAX_SAMPLE
    {
      assert p.l == 0 && 0 <= p.c < 5;
    }
  }

  /** The replay of the first two row visits: the signal 0, 0, 2 and the
      steps 0, 0, 2 on the first three cells, and D = 2 at the third
      whichever key is pushed. */
  lemma RowReplayStart(cumulative: bool) returns (v: Levels)
    ensures v == Replay(RowLow, RowHigh, {Cell(0, 0)}, RowTrail.earlier.earlier, cumulative)
    ensures Known(v, Cell(0, 0)) && Known(v, Cell(0, 1)) && Known(v, Cell(0, 2))
    ensures v.signal[Cell(0, 0)] == 0 && v.signal[Cell(0, 1)] == 0 && v.signal[Cell(0, 2)] == 2
    ensures v.step[Cell(0, 0)] == 0 && v.step[Cell(0, 1)] == 0 && v.step[Cell(0, 2)] == 2
    ensures v.dist[Cell(0, 2)] == 2
  {
    var seeds := {Cell(0, 0)};
    var t1 := Then(NoVisit, Cell(0, 0), Cell(0, 1));
    var v0 := Replay(RowLow, RowHigh, seeds, NoVisit, cumulative);
    assert Known(v0, Cell(0, 0)) && v0.signal[Cell(0, 0)] == 0 && v0.step[Cell(0, 0)] == 0 && v0.dist[Cell(0, 0)] == 0;
    var v1 := Replay(RowLow, RowHigh, seeds, t1, cumulative);
    assert v1 == Reach(v0, Cell(0, 0), Cell(0, 1), 0, 2, cumulative);
    assert v1.signal[Cell(0, 1)] == 0 && v1.step[Cell(0, 1)] == 0 && v1.dist[Cell(0, 1)] == 0;
    v := Replay(RowLow, RowHigh, seeds, RowTrail.earlier.earlier, cumulative);
    assert v == Reach(v1, Cell(0, 1), Cell(0, 2), 2, 2, cumulative);
  }

  /** The replay of the first three row visits: the signal 0, 0, 2, 2
      and the steps 0, 0, 2, 0 on the first four cells, and D = 2 at the
      fourth whichever key is pushed. */
  lemma RowReplayEarly(cumulative: bool) returns (v: Levels)
    ensures v == Replay(RowLow, RowHigh, {Cell(0, 0)}, RowTrail.earlier, cumulative)
    ensures forall i :: 0 <= i < 4 ==> Known(v, Cell(0, i))
    ensures v.signal[Cell(0, 0)] == 0 && v.signal[Cell(0, 1)] == 0 && v.signal[Cell(0, 2)] == 2
    ensures v.signal[Cell(0, 3)] == 2
    ensures v.step[Cell(0, 0)] == 0 && v.step[Cell(0, 1)] == 0 && v.step[Cell(0, 2)] == 2
    ensures v.step[Cell(0, 3)] == 0 && v.dist[Cell(0, 3)] == 2
  {
    var v2 := RowReplayStart(cumulative);
    v := Replay(RowLow, RowHigh, {Cell(0, 0)}, RowTrail.earlier, cumulative);
    assert v == Reach(v2, Cell(0, 2), Cell(0, 3), 2, 4, cumulative);
  }

  /** The replay of the row visits, whichever key is pushed: at the five
      cells the signal is 0, 0, 2, 2, 4 and the steps are 0, 0, 2, 0, 2;
      D at the last cell is 4 with the cumulative push and 2 as written. */
  lemma RowReplay(cumulative: bool) returns (v: Levels)
    ensures v == Replay(RowLow, RowHigh, {Cell(0, 0)}, RowTrail, cumulative)
    ensures forall i :: 0 <= i < 5 ==> Known(v, Cell(0, i))
    ensures v.signal[Cell(0, 0)] == 0 && v.signal[Cell(0, 1)] == 0 && v.signal[Cell(0, 2)] == 2
    ensures v.signal[Cell(0, 3)] == 2 && v.signal[Cell(0, 4)] == 4
    ensures v.step[Cell(0, 0)] == 0 && v.step[Cell(0, 1)] == 0 && v.step[Cell(0, 2)] == 2
    ensures v.step[Cell(0, 3)] == 0 && v.step[Cell(0, 4)] == 2
    ensures v.dist[Cell(0, 4)] == if cumulative then 4 else 2
  {
    var v3 := RowReplayEarly(cumulative);
    v := Replay(RowLow, RowHigh, {Cell(0, 0)}, RowTrail, cumulative);
    assert v == Reach(v3, Cell(0, 3), Cell(0, 4), 4, 4, cumulative);
  }

  /** The row visits are a visit structure from the seed (0, 0). */
  lemma RowForest()
    ensures Forest({Cell(0, 0)}, {Cell(0, 0), Cell(0, 1), Cell(0, 2), Cell(0, 3), Cell(0, 4)}, RowTrail)
  {
    var s := {Cell(0, 0)};
    var t1 := Then(NoVisit, Cell(0, 0), Cell(0, 1));
    var t2 := Then(t1, Cell(0, 1), Cell(0, 2));
    var t3 := Then(t2, Cell(0, 2), Cell(0, 3));
    assert Adjacent(Cell(0, 0), Cell(0, 1)) && Adjacent(Cell(0, 1), Cell(0, 2));
    assert Adjacent(Cell(0, 2), Cell(0, 3)) && Adjacent(Cell(0, 3), Cell(0, 4));
    ForestVisit(s, s, NoVisit, Cell(0, 0), Cell(0, 1));
    ForestVisit(s, s + {Cell(0, 1)}, t1, Cell(0, 1), Cell(0, 2));
    ForestVisit(s, s + {Cell(0, 1)} + {Cell(0, 2)}, t2, Cell(0, 2), Cell(0, 3));
    ForestVisit(s, s + {Cell(0, 1)} + {Cell(0, 2)} + {Cell(0, 3)}, t3, Cell(0, 3), Cell(0, 4));
    assert s + {Cell(0, 1)} + {Cell(0, 2)} + {Cell(0, 3)} + {Cell(0, 4)} ==
      {Cell(0, 0), Cell(0, 1), Cell(0, 2), Cell(0, 3), Cell(0, 4)};
    assert Then(t3, Cell(0, 3), Cell(0, 4)) == RowTrail;
  }

  /** On the row [0, 2, 4] seeded at its first pixel, the signal climbs
      0, 0, 2, 2, 4 along the row: the last pixel lies beyond two level
      lines of height 2 each, so its level-lines distance is 4. As
      written the transform gives it 2, counting the second level line
      and forgetting the first; with the cumulative push it gives 4.
      The row admits no other visits, whatever order the queue pops in. */
  lemma AsWrittenForgetsLevelLines()
    ensures IsInterval(RowLow, RowHigh) && Samples(RowLow, RowHigh)
    ensures Forest({Cell(0, 0)}, {Cell(0, 0), Cell(0, 1), Cell(0, 2), Cell(0, 3), Cell(0, 4)}, RowTrail)
    ensures Replay(RowLow, RowHigh, {Cell(0, 0)}, RowTrail, false).dist[Cell(0, 4)] == 2
    ensures Replay(RowLow, RowHigh, {Cell(0, 0)}, RowTrail, true).dist[Cell(0, 4)] == 4
  {
    RowIsInterval();
    var _ := RowReplay(false);
    var _ := RowReplay(true);
    RowForest();
  }
}
