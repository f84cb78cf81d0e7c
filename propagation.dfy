/** The traversal skeleton both distance transforms share: seeds are
    validated and visited first, then every popped cell visits its
    unvisited 4-neighbours exactly once. This module states, on ghost
    bookkeeping, what such a traversal leaves behind, and proves the
    consequences both transforms rely on: every visited cell is linked
    to a seed by a chain of neighbours, and once nothing is pending the
    whole rectangle has been visited. */
module Propagation {
  import opened Utils
  import opened Queue

  /** A transform either fails on the first seed that is outside the
      grid or not a 2-face, or succeeds with a value. */
  datatype Outcome<T> = Success(value: T) | Failure(badSeed: Cell)

  /** The check each seed must pass before anything is propagated: the
      seed is a cell of the grid at even coordinates, that is, a pixel of
      the image the grid immerses. */
  predicate ValidSeed(shape: (int, int), s: Cell): (b: bool)
    ensures b <==> s in Domain(shape) && s == Cell(2 * (s.l / 2), 2 * (s.c / 2))
  {
    InDomain(shape, s.l, s.c) && IsTwoFace(s.l, s.c)
  }

  /** The first `i` seeds all pass the check. */
  predicate ValidUpTo(shape: (int, int), seeds: seq<Cell>, i: nat)
    requires i <= |seeds|
  {
    i == 0 || (ValidUpTo(shape, seeds, i - 1) && ValidSeed(shape, seeds[i - 1]))
  }

  lemma {:induction false} ValidUpToAll(shape: (int, int), seeds: seq<Cell>, i: nat)
    requires i <= |seeds|
    ensures ValidUpTo(shape, seeds, i) <==> forall j :: 0 <= j < i ==> ValidSeed(shape, seeds[j])
  {
    if i > 0 {
      ValidUpToAll(shape, seeds, i - 1);
    }
  }

  /** The interval grid of an immersion: `m` and `M` are images of one
      shape and `m <= M` pointwise. */
  ghost predicate IsInterval(m: seq<seq<int>>, M: seq<seq<int>>)
  {
    && IsImage(m) && IsImage(M) && Dims(m) == Dims(M)
    && forall p: Cell :: InDomain(Dims(m), p.l, p.c) ==> At(m, p) <= At(M, p)
  }

  function SeedSet(seeds: seq<Cell>): set<Cell>
  {
    set s | s in seeds
  }

  /** The first `i` seeds, as a set, accumulated the way the seed loops
      visit them. */
  function SeedsUpTo(seeds: seq<Cell>, i: nat): set<Cell>
    requires i <= |seeds|
  {
    if i == 0 then {} else SeedsUpTo(seeds, i - 1) + {seeds[i - 1]}
  }

  lemma {:induction false} SeedsUpToAll(seeds: seq<Cell>, i: nat)
    requires i <= |seeds|
    ensures SeedsUpTo(seeds, i) == SeedSet(seeds[..i])
  {
    if i > 0 {
      SeedsUpToAll(seeds, i - 1);
      assert seeds[..i] == seeds[..i - 1] + [seeds[i - 1]];
    }
  }

  /** All the seeds, accumulated one by one, are the seed set. */
  lemma SeedsUpToWhole(seeds: seq<Cell>)
    ensures SeedsUpTo(seeds, |seeds|) == SeedSet(seeds)
  {
    SeedsUpToAll(seeds, |seeds|);
    assert seeds[..|seeds|] == seeds;
  }

  /** The boolean grid `marks` is true exactly on the cells of `visited`. */
  ghost predicate Marks(marks: array2<bool>, visited: set<Cell>)
    reads marks
  {
    && (forall p {:trigger p in visited} :: p in visited ==> InDomain(Shape(marks), p.l, p.c) && marks[p.l, p.c])
    && (forall l, c {:trigger marks[l, c]} :: 0 <= l < marks.Length0 && 0 <= c < marks.Length1 && marks[l, c] ==> Cell(l, c) in visited)
  }

  /** A marked cell is visited. */
  lemma MarkedVisited(marks: array2<bool>, visited: set<Cell>, l: int, c: int)
    requires Marks(marks, visited) && InDomain(Shape(marks), l, c) && marks[l, c]
    ensures Cell(l, c) in visited
  {
  }

  /** The grid `a` holds `vals` at every cell of its key set. */
  ghost predicate Holds<T>(a: array2<T>, vals: map<Cell, T>)
    reads a
  {
    forall p {:trigger vals[p]} :: p in vals ==> InDomain(Shape(a), p.l, p.c) && a[p.l, p.c] == vals[p]
  }

  /** The in-domain cells reached from `p` by the first `k` moves of C4
      have been visited. */
  predicate ClosedUpTo(shape: (int, int), visited: set<Cell>, p: Cell, k: int)
  {
    forall j :: 0 <= j < k && j < |C4| && InDomain(shape, Shift(p, C4[j]).l, Shift(p, C4[j]).c) ==>
      Shift(p, C4[j]) in visited
  }

  /** Every in-domain 4-neighbour of `p` has been visited. */
  predicate Closed(shape: (int, int), visited: set<Cell>, p: Cell)
  {
    ClosedUpTo(shape, visited, p, |C4|)
  }

  /** Handling move `k` of C4 extends what is closed by one move. */
  lemma ClosedStep(shape: (int, int), visited: set<Cell>, more: set<Cell>, p: Cell, k: int)
    requires 0 <= k < |C4| && ClosedUpTo(shape, visited, p, k) && visited <= more
    requires InDomain(shape, Shift(p, C4[k]).l, Shift(p, C4[k]).c) ==> Shift(p, C4[k]) in more
    ensures ClosedUpTo(shape, more, p, k + 1)
  {
  }

  /** The visits of a propagation, in the order they happen:
      `Then(earlier, from, cell)` is the visits `earlier` followed by
      the visit of `cell` from its neighbour `from`. */
  datatype Visits = NoVisit | Then(earlier: Visits, from: Cell, cell: Cell)

  /** The cell each visited non-seed cell was reached from. */
  function Parents(trail: Visits): (parent: map<Cell, Cell>)
    ensures trail.Then? ==> trail.cell in parent && parent[trail.cell] == trail.from
  {
    match trail
    case NoVisit => map[]
    case Then(earlier, from, cell) => Parents(earlier)[cell := from]
  }

  /** The visit structure a propagation builds: starting from the seeds,
      each visit reaches a new cell from an already visited
      4-neighbour; `visited` is the seeds and the cells visited. */
  ghost predicate Forest(seeds: set<Cell>, visited: set<Cell>, trail: Visits)
    decreases trail
  {
    match trail
    case NoVisit => visited == seeds
    case Then(earlier, from, cell) =>
      && cell in visited && from in visited && Adjacent(from, cell)
      && Forest(seeds, visited - {cell}, earlier)
  }

  /** What a visit structure amounts to: the seeds are visited, the
      cells with a parent are exactly the other visited cells, and each
      parent is a visited 4-neighbour. */
  lemma {:induction false} ForestParents(seeds: set<Cell>, visited: set<Cell>, trail: Visits)
    requires Forest(seeds, visited, trail)
    ensures seeds <= visited
    ensures Parents(trail).Keys == visited - seeds
    ensures forall n :: n in Parents(trail) ==> Parents(trail)[n] in visited && Adjacent(Parents(trail)[n], n)
    decreases trail
  {
    match trail
    case NoVisit =>
    case Then(earlier, from, cell) =>
      ForestParents(seeds, visited - {cell}, earlier);
  }

  /** Visiting the unvisited `n` from its visited neighbour `cur`
      extends the visit structure. */
  lemma ForestVisit(seeds: set<Cell>, visited: set<Cell>, trail: Visits, cur: Cell, n: Cell)
    requires Forest(seeds, visited, trail)
    requires cur in visited && n !in visited && Adjacent(cur, n)
    ensures Forest(seeds, visited + {n}, Then(trail, cur, n))
  {
    assert visited + {n} - {n} == visited;
  }

  /** A chain of neighbours from a seed to `path[|path| - 1]`, each step
      from a cell to one it reached. */
  ghost predicate SeedPath(seeds: set<Cell>, visited: set<Cell>, parent: map<Cell, Cell>, path: seq<Cell>)
  {
    && |path| >= 1
    && path[0] in seeds
    && (forall i :: 0 <= i < |path| ==> path[i] in visited)
    && (forall i :: 0 < i < |path| ==> path[i] in parent && parent[path[i]] == path[i - 1])
    && (forall i :: 0 < i < |path| ==> Adjacent(path[i - 1], path[i]))
  }

  /** A seed path stays one when a cell outside it is visited and given
      a parent. */
  lemma SeedPathGrow(
    seeds: set<Cell>, visited: set<Cell>, parent: map<Cell, Cell>, path: seq<Cell>, cell: Cell, from: Cell)
    requires SeedPath(seeds, visited, parent, path) && cell !in visited
    ensures SeedPath(seeds, visited + {cell}, parent[cell := from], path)
  {
    assert forall i :: 0 <= i < |path| ==> path[i] != cell;
  }

  /** A seed path extends to a visited child of its last cell. */
  lemma SeedPathExtend(seeds: set<Cell>, visited: set<Cell>, parent: map<Cell, Cell>, path: seq<Cell>, cell: Cell)
    requires SeedPath(seeds, visited, parent, path)
    requires cell in visited && cell in parent && parent[cell] == path[|path| - 1]
    requires Adjacent(path[|path| - 1], cell)
    ensures SeedPath(seeds, visited, parent, path + [cell])
  {
  }

  /** Every visited cell is reached from some seed through a chain of
      parents: the propagation path the transforms accumulate along. */
  lemma {:induction false} PathFromSeed(seeds: set<Cell>, visited: set<Cell>, trail: Visits, p: Cell)
    returns (path: seq<Cell>)
    requires Forest(seeds, visited, trail)
    requires p in visited
    ensures SeedPath(seeds, visited, Parents(trail), path) && path[|path| - 1] == p
    decreases trail
  {
    match trail
    case NoVisit =>
      path := [p];
    case Then(earlier, from, cell) =>
      var before := visited - {cell};
      var target := if p == cell then from else p;
      assert target in before by {
        ForestParents(seeds, visited, trail);
      }
      var prefix := PathFromSeed(seeds, before, earlier, target);
      SeedPathGrow(seeds, before, Parents(earlier), prefix, cell, from);
      assert before + {cell} == visited;
      if p == cell {
        SeedPathExtend(seeds, visited, Parents(trail), prefix, cell);
        path := prefix + [cell];
      } else {
        path := prefix;
      }
  }

  lemma {:induction false} ReachColumn(shape: (int, int), visited: set<Cell>, l0: int, c: int, l: int)
    requires forall p :: p in visited ==> Closed(shape, visited, p)
    requires Cell(l0, c) in visited && InDomain(shape, l0, c)
    requires InDomain(shape, l, c)
    ensures Cell(l, c) in visited
    decreases Abs(l - l0)
  {
    if l != l0 {
      var k := if l > l0 then 1 else 3;
      var next := Shift(Cell(l0, c), C4[k]);
      assert next == Cell(if l > l0 then l0 + 1 else l0 - 1, c);
      assert Closed(shape, visited, Cell(l0, c));
      assert next in visited;
      ReachColumn(shape, visited, next.l, c, l);
    }
  }

  lemma {:induction false} ReachRow(shape: (int, int), visited: set<Cell>, l: int, c0: int, c: int)
    requires forall p :: p in visited ==> Closed(shape, visited, p)
    requires Cell(l, c0) in visited && InDomain(shape, l, c0)
    requires InDomain(shape, l, c)
    ensures Cell(l, c) in visited
    decreases Abs(c - c0)
  {
    if c != c0 {
      var k := if c > c0 then 2 else 0;
      var next := Shift(Cell(l, c0), C4[k]);
      assert next == Cell(l, if c > c0 then c0 + 1 else c0 - 1);
      assert Closed(shape, visited, Cell(l, c0));
      assert next in visited;
      ReachRow(shape, visited, l, next.c, c);
    }
  }

  /** A set of cells that holds one cell of the grid and all the
      in-domain neighbours of each of its cells is the whole grid: once
      the queue is empty, a propagation from at least one seed has
      visited every cell. */
  lemma ClosedCoversGrid(shape: (int, int), visited: set<Cell>, s: Cell, l: int, c: int)
    requires forall p :: p in visited ==> Closed(shape, visited, p)
    requires s in visited && InDomain(shape, s.l, s.c)
    requires InDomain(shape, l, c)
    ensures Cell(l, c) in visited
  {
    ReachColumn(shape, visited, s.l, s.c, l);
    ReachRow(shape, visited, l, s.c, c);
  }

  /** Every visited cell that is not open has all its in-domain
      neighbours visited. */
  predicate Settled(shape: (int, int), visited: set<Cell>, open: set<Cell>)
  {
    forall p :: p in visited && p !in open ==> Closed(shape, visited, p)
  }

  /** Expanding the popped cell `cur` (closing it, and opening every
      cell it visits) keeps every other settled cell settled. */
  lemma SettledExpand(
    shape: (int, int), visited0: set<Cell>, open0: set<Cell>, visited: set<Cell>, open: set<Cell>, cur: Cell)
    requires Settled(shape, visited0, open0) && Closed(shape, visited, cur)
    requires visited0 <= visited && open0 - {cur} <= open && visited - visited0 <= open
    ensures Settled(shape, visited, open)
  {
    forall p | p in visited && p !in open
      ensures Closed(shape, visited, p)
    {
      if p != cur {
        assert p in visited0 && p !in open0;
        assert Closed(shape, visited0, p);
      }
    }
  }

  /** Visiting more cells of the grid leaves fewer unvisited: with
      the queue size, this bounds the number of turns of the
      propagation loop. */
  lemma UnvisitedShrinks(shape: (int, int), visited: set<Cell>, more: set<Cell>)
    requires visited <= more && visited != more
    requires forall p :: p in more ==> InDomain(shape, p.l, p.c)
    ensures |Domain(shape) - more| < |Domain(shape) - visited|
  {
    assert !(more <= visited);
    var p :| p in more && p !in visited;
    assert p == Cell(p.l, p.c);
    var rest, left := Domain(shape) - more, (Domain(shape) - visited) - {p};
    assert rest <= left;
    assert rest - left == {} && left * rest == rest && left + rest == left;
    assert |left - rest| + |rest| == |left|;
    assert |left| == |Domain(shape) - visited| - 1;
  }

  /** Every entry in the queue is for a visited cell. */
  predicate WithinVisited(pending: multiset<Entry>, visited: set<Cell>)
  {
    forall e :: e in pending ==> e.cell in visited
  }

  /** Every cell of `open` (visited, not yet expanded) still has its
      entry in the queue: the priority it was pushed with is `prio`. */
  ghost predicate Waiting(pending: multiset<Entry>, open: set<Cell>, prio: map<Cell, nat>)
  {
    forall p :: p in open ==> p in prio && Entry(p, prio[p]) in pending
  }

  /** Pushing `n` with priority `d` keeps every open cell waiting. */
  lemma WaitingPush(pending: multiset<Entry>, open: set<Cell>, prio: map<Cell, nat>, n: Cell, d: nat)
    requires Waiting(pending, open, prio)
    requires n in open ==> prio[n] == d
    ensures Waiting(pending + multiset{Entry(n, d)}, open + {n}, prio[n := d])
  {
  }

  /** Popping the entry of `e.cell` keeps every other open cell waiting. */
  lemma WaitingPop(pending: multiset<Entry>, open: set<Cell>, prio: map<Cell, nat>, e: Entry)
    requires Waiting(pending, open, prio)
    ensures Waiting(pending - multiset{e}, open - {e.cell}, prio)
  {
    forall p | p in open - {e.cell}
      ensures Entry(p, prio[p]) in pending - multiset{e}
    {
      assert Entry(p, prio[p]) != e;
    }
  }

  /** The queue bookkeeping of a propagation: every entry is for a
      visited cell, and every open cell (visited, not yet expanded)
      still has its entry pending. */
  ghost predicate Queued(pending: multiset<Entry>, visited: set<Cell>, open: set<Cell>, prio: map<Cell, nat>)
  {
    open <= visited && WithinVisited(pending, visited) && Waiting(pending, open, prio)
  }

  /** Visiting and pushing the unvisited `n` opens it. */
  lemma QueuedVisit(pending: multiset<Entry>, visited: set<Cell>, open: set<Cell>, prio: map<Cell, nat>, n: Cell, d: nat)
    requires Queued(pending, visited, open, prio) && n !in visited
    ensures Queued(pending + multiset{Entry(n, d)}, visited + {n}, open + {n}, prio[n := d])
  {
    WaitingPush(pending, open, prio, n, d);
  }

  /** Every priority recorded is 0: only seeds have been pushed. */
  predicate ZeroPriorities(prio: map<Cell, nat>)
  {
    forall p :: p in prio ==> prio[p] == 0
  }

  /** Pushing a seed, possibly one already pushed, with priority 0. */
  lemma QueuedSeed(pending: multiset<Entry>, visited: set<Cell>, prio: map<Cell, nat>, s: Cell)
    requires Queued(pending, visited, visited, prio)
    requires ZeroPriorities(prio)
    ensures Queued(pending + multiset{Entry(s, 0)}, visited + {s}, visited + {s}, prio[s := 0])
    ensures ZeroPriorities(prio[s := 0])
  {
    WaitingPush(pending, visited, prio, s, 0);
  }

  /** Popping an entry closes its cell's waiting. */
  lemma QueuedPop(pending: multiset<Entry>, visited: set<Cell>, open: set<Cell>, prio: map<Cell, nat>, e: Entry)
    requires Queued(pending, visited, open, prio)
    ensures Queued(pending - multiset{e}, visited, open - {e.cell}, prio)
  {
    WaitingPop(pending, open, prio, e);
  }

  /** Once nothing is pending, no cell is waiting. */
  lemma WaitingEmpty(open: set<Cell>, prio: map<Cell, nat>)
    requires Waiting(multiset{}, open, prio)
    ensures open == {}
  {
  }
}
