/** The Dahu (minimum-barrier) distance transform on an immersed grid
    (dahu/dahu_distance_transform.py), on its working grids. The values
    the propagation has written are, at every step, those `Replay`
    rebuilds from the visit structure (seeds, parents, visit order);
    `Mirror` ties the grids to them, and `DahuTree` (proved of every
    replay) states what they satisfy. */
module Dahu {
  import opened Utils
  import opened Queue
  import opened Propagation
  import opened DahuSpec

  /** The working grids hold the given values at every cell that has them. */
  ghost predicate Mirror(F: array2<int>, minImg: array2<int>, maxImg: array2<int>, v: Values)
    reads F, minImg, maxImg
  {
    Holds(F, v.signal) && Holds(minImg, v.low) && Holds(maxImg, v.high)
  }

  /** The working grids are three distinct arrays. */
  predicate Separate(F: array2<int>, minImg: array2<int>, maxImg: array2<int>)
  {
    F != minImg && F != maxImg && minImg != maxImg
  }

  /** What the propagation keeps true from one step to the next: the
      grids have the shape of the input, `dejaVu` marks the visited
      cells, and the grids hold the replay of the visits so far. */
  ghost predicate DahuState(
    m: seq<seq<int>>, M: seq<seq<int>>, F: array2<int>, minImg: array2<int>, maxImg: array2<int>, dejaVu: array2<bool>,
    seeds: set<Cell>, visited: set<Cell>, trail: Visits)
    reads F, minImg, maxImg, dejaVu
  {
    && Shape(F) == Dims(m) && Shape(minImg) == Dims(m) && Shape(maxImg) == Dims(m) && Shape(dejaVu) == Dims(m)
    && Marks(dejaVu, visited)
    && Forest(seeds, visited, trail)
    && Mirror(F, minImg, maxImg, Replay(m, M, seeds, trail))
  }

  /** Writes the signal and both extremes of `p` and marks it. */
  method WriteCell(
    F: array2<int>, minImg: array2<int>, maxImg: array2<int>, dejaVu: array2<bool>,
    ghost visited: set<Cell>, ghost v: Values, p: Cell, f: int, lo: int, hi: int)
    requires F != minImg && F != maxImg && minImg != maxImg
    requires Shape(minImg) == Shape(F) && Shape(maxImg) == Shape(F) && Shape(dejaVu) == Shape(F)
    requires Mirror(F, minImg, maxImg, v) && Marks(dejaVu, visited) && InDomain(Shape(F), p.l, p.c)
    modifies F, minImg, maxImg, dejaVu
    ensures Mirror(F, minImg, maxImg, Values(v.signal[p := f], v.low[p := lo], v.high[p := hi]))
    ensures Marks(dejaVu, visited + {p})
  {
    F[p.l, p.c] := f;
    minImg[p.l, p.c] := lo;
    maxImg[p.l, p.c] := hi;
    dejaVu[p.l, p.c] := true;
  }

  /** Initialises one valid seed (lines 18-22): F = min = max = m there,
      the seed is marked and pushed with priority 0. */
  method StartSeed(
    m: seq<seq<int>>, M: seq<seq<int>>, F: array2<int>, minImg: array2<int>, maxImg: array2<int>, dejaVu: array2<bool>,
    q: WorkQueue, s: Cell, ghost visited: set<Cell>, ghost prio: map<Cell, nat>)
    requires IsInterval(m, M) && Separate(F, minImg, maxImg)
    requires DahuState(m, M, F, minImg, maxImg, dejaVu, visited, visited, NoVisit)
    requires Queued(q.pending, visited, visited, prio) && ZeroPriorities(prio)
    requires InDomain(Dims(m), s.l, s.c)
    modifies F, minImg, maxImg, dejaVu, q
    ensures DahuState(m, M, F, minImg, maxImg, dejaVu, visited + {s}, visited + {s}, NoVisit)
    ensures Queued(q.pending, visited + {s}, visited + {s}, prio[s := 0])
    ensures ZeroPriorities(prio[s := 0])
  {
    var l, c := s.l, s.c;
    WriteCell(F, minImg, maxImg, dejaVu, visited, Start(m, visited), s, m[l][c], m[l][c], m[l][c]);
    StartAdd(m, visited, s);
    QueuedSeed(q.pending, visited, prio, s);
    q.Push(s, 0);
  }

  /** Validates and initialises the seeds in turn (lines 16-22); the
      first seed outside the grid or not a 2-face stops the transform. */
  method SeedDahu(
    m: seq<seq<int>>, M: seq<seq<int>>, seeds: seq<Cell>,
    F: array2<int>, minImg: array2<int>, maxImg: array2<int>, dejaVu: array2<bool>, q: WorkQueue)
    returns (ok: bool, bad: Cell, ghost visited: set<Cell>, ghost prio: map<Cell, nat>)
    requires IsInterval(m, M) && Separate(F, minImg, maxImg)
    requires Shape(F) == Dims(m) && Shape(minImg) == Dims(m) && Shape(maxImg) == Dims(m) && Shape(dejaVu) == Dims(m)
    requires Marks(dejaVu, {}) && q.pending == multiset{}
    modifies F, minImg, maxImg, dejaVu, q
    ensures ok <==> forall i :: 0 <= i < |seeds| ==> ValidSeed(Dims(m), seeds[i])
    ensures !ok ==>
      exists i :: 0 <= i < |seeds| && seeds[i] == bad && !ValidSeed(Dims(m), seeds[i]) &&
        forall j :: 0 <= j < i ==> ValidSeed(Dims(m), seeds[j])
    ensures ok ==>
      && visited == SeedSet(seeds)
      && DahuState(m, M, F, minImg, maxImg, dejaVu, visited, visited, NoVisit)
      && Queued(q.pending, visited, visited, prio)
  {
    var shape := Dims(m);
    visited, prio := {}, map[];
    for i := 0 to |seeds|
      invariant ValidUpTo(shape, seeds, i)
      invariant visited == SeedsUpTo(seeds, i)
      invariant DahuState(m, M, F, minImg, maxImg, dejaVu, visited, visited, NoVisit)
      invariant Queued(q.pending, visited, visited, prio) && ZeroPriorities(prio)
    {
      var l, c := seeds[i].l, seeds[i].c;
      if !(InDomain(shape, l, c) && IsTwoFace(l, c)) {
        ok, bad := false, Cell(l, c);
        ValidUpToAll(shape, seeds, i);
        assert seeds[i] == bad && !ValidSeed(shape, seeds[i]);
        return;
      }
      StartSeed(m, M, F, minImg, maxImg, dejaVu, q, seeds[i], visited, prio);
      visited, prio := visited + {seeds[i]}, prio[seeds[i] := 0];
    }
    SeedsUpToWhole(seeds);
    ValidUpToAll(shape, seeds, |seeds|);
    ok, bad := true, Cell(0, 0);
  }

  /** Records the visit of `n` from `cur`: writes the signal `f` and the
      extremes `lo` and `hi` of `n`, which are its values in the replay
      of the extended visits, and marks it. */
  method WriteVisit(
    m: seq<seq<int>>, M: seq<seq<int>>,
    F: array2<int>, minImg: array2<int>, maxImg: array2<int>, dejaVu: array2<bool>, cur: Cell, n: Cell,
    f: int, lo: int, hi: int, ghost seeds: set<Cell>, ghost visited: set<Cell>, ghost trail: Visits)
    requires Separate(F, minImg, maxImg)
    requires DahuState(m, M, F, minImg, maxImg, dejaVu, seeds, visited, trail)
    requires cur in visited && n !in visited && Adjacent(cur, n) && InDomain(Dims(m), n.l, n.c)
    requires var v := Replay(m, M, seeds, trail);
      Replay(m, M, seeds, Then(trail, cur, n)) == Values(v.signal[n := f], v.low[n := lo], v.high[n := hi])
    modifies F, minImg, maxImg, dejaVu
    ensures DahuState(m, M, F, minImg, maxImg, dejaVu, seeds, visited + {n}, Then(trail, cur, n))
  {
    WriteCell(F, minImg, maxImg, dejaVu, visited, Replay(m, M, seeds, trail), n, f, lo, hi);
    ForestVisit(seeds, visited, trail, cur, n);
  }

  /** Visits the unvisited neighbour `n` of `cur` (lines 30-35): `n`
      gets the signal of `cur` clamped into its interval and the running
      extremes extended with it, and is marked; `diff`, the priority it
      is pushed with, is the absolute change of the signal. */
  method VisitDahu(
    m: seq<seq<int>>, M: seq<seq<int>>,
    F: array2<int>, minImg: array2<int>, maxImg: array2<int>, dejaVu: array2<bool>, cur: Cell, n: Cell,
    ghost seeds: set<Cell>, ghost visited: set<Cell>, ghost trail: Visits)
    returns (diff: nat)
    requires IsInterval(m, M) && Separate(F, minImg, maxImg)
    requires DahuState(m, M, F, minImg, maxImg, dejaVu, seeds, visited, trail)
    requires cur in visited && Adjacent(cur, n) && InDomain(Dims(m), n.l, n.c) && !dejaVu[n.l, n.c]
    modifies F, minImg, maxImg, dejaVu
    ensures DahuState(m, M, F, minImg, maxImg, dejaVu, seeds, visited + {n}, Then(trail, cur, n))
    ensures n !in visited
    ensures var v := Replay(m, M, seeds, Then(trail, cur, n));
      Known(v, cur) && Known(v, n) && diff == Abs(v.signal[cur] - v.signal[n])
  {
    ghost var v := Replay(m, M, seeds, trail);
    ReplayKeys(m, M, seeds, visited, trail);
    var l, c, nl, nc := cur.l, cur.c, n.l, n.c;
    var f := Clamp(F[l, c], m[nl][nc], M[nl][nc]);
    var lo, hi := Min(f, minImg[l, c]), Max(f, maxImg[l, c]);
    assert F[l, c] == v.signal[cur] && minImg[l, c] == v.low[cur] && maxImg[l, c] == v.high[cur];
    assert m[nl][nc] == At(m, n) && M[nl][nc] == At(M, n);
    ReplayThen(m, M, seeds, trail, cur, n);
    ReachWrites(v, cur, n, At(m, n), At(M, n), f, lo, hi);
    WriteVisit(m, M, F, minImg, maxImg, dejaVu, cur, n, f, lo, hi, seeds, visited, trail);
    diff := Abs(F[l, c] - F[nl, nc]);
  }

  /** The `k`-th move of the inner loop (lines 28-36): the neighbour
      `n` of `cur` in that direction, when it is in the grid and not yet
      visited, is visited and pushed with the absolute change of the
      signal as its priority. The state before the move is the one
      reached after the first `k` moves from the expansion's start
      (`visited0`, `open0`, `pending0`). */
  method TryVisitDahu(
    m: seq<seq<int>>, M: seq<seq<int>>,
    F: array2<int>, minImg: array2<int>, maxImg: array2<int>, dejaVu: array2<bool>, q: WorkQueue, cur: Cell, k: nat,
    ghost seeds: set<Cell>, ghost visited0: set<Cell>, ghost open0: set<Cell>, ghost pending0: multiset<Entry>,
    ghost visitedK: set<Cell>, ghost trailK: Visits, ghost openK: set<Cell>, ghost prioK: map<Cell, nat>)
    returns (ghost visited: set<Cell>, ghost trail: Visits, ghost open: set<Cell>, ghost prio: map<Cell, nat>)
    requires IsInterval(m, M) && Separate(F, minImg, maxImg) && k < |C4| && cur in visited0
    requires DahuState(m, M, F, minImg, maxImg, dejaVu, seeds, visitedK, trailK)
    requires visited0 <= visitedK && open0 <= openK && visitedK - visited0 <= openK
    requires visitedK == visited0 ==> q.pending == pending0
    requires ClosedUpTo(Dims(m), visitedK, cur, k)
    requires Queued(q.pending, visitedK, openK, prioK)
    modifies F, minImg, maxImg, dejaVu, q
    ensures DahuState(m, M, F, minImg, maxImg, dejaVu, seeds, visited, trail)
    ensures visited0 <= visited && open0 <= open && visited - visited0 <= open
    ensures visited == visited0 ==> q.pending == pending0
    ensures ClosedUpTo(Dims(m), visited, cur, k + 1)
    ensures Queued(q.pending, visited, open, prio)
  {
    visited, trail, open, prio := visitedK, trailK, openK, prioK;
    var n := Shift(cur, C4[k]);
    ShiftAdjacent(cur, k);
    var nl, nc := n.l, n.c;
    if InDomain(Dims(m), nl, nc) && dejaVu[nl, nc] {
      MarkedVisited(dejaVu, visited, nl, nc);
    }
    if InDomain(Dims(m), nl, nc) && !dejaVu[nl, nc] {
      var diff := VisitDahu(m, M, F, minImg, maxImg, dejaVu, cur, n, seeds, visited, trail);
      QueuedVisit(q.pending, visited, open, prio, n, diff);
      q.Push(n, diff);
      visited, trail, open, prio := visited + {n}, Then(trail, cur, n), open + {n}, prio[n := diff];
    }
    ClosedStep(Dims(m), visitedK, visited, cur, k);
  }

  /** One turn of the outer loop after the pop (lines 27-36): every
      in-domain, not yet visited 4-neighbour of `cur` is visited. */
  method ExpandDahu(
    m: seq<seq<int>>, M: seq<seq<int>>,
    F: array2<int>, minImg: array2<int>, maxImg: array2<int>, dejaVu: array2<bool>, q: WorkQueue, cur: Cell,
    ghost seeds: set<Cell>, ghost visited0: set<Cell>, ghost trail0: Visits, ghost open0: set<Cell>,
    ghost prio0: map<Cell, nat>)
    returns (ghost visited: set<Cell>, ghost trail: Visits, ghost open: set<Cell>, ghost prio: map<Cell, nat>)
    requires IsInterval(m, M) && Separate(F, minImg, maxImg)
    requires DahuState(m, M, F, minImg, maxImg, dejaVu, seeds, visited0, trail0)
    requires cur in visited0
    requires Queued(q.pending, visited0, open0, prio0)
    modifies F, minImg, maxImg, dejaVu, q
    ensures DahuState(m, M, F, minImg, maxImg, dejaVu, seeds, visited, trail)
    ensures visited0 <= visited && open0 <= open && visited - visited0 <= open
    ensures visited == visited0 ==> q.pending == old(q.pending)
    ensures Closed(Dims(m), visited, cur)
    ensures Queued(q.pending, visited, open, prio)
  {
    ghost var pending0 := q.pending;
    visited, trail, open, prio := visited0, trail0, open0, prio0;
    for k := 0 to |C4|
      invariant DahuState(m, M, F, minImg, maxImg, dejaVu, seeds, visited, trail)
      invariant visited0 <= visited && open0 <= open && visited - visited0 <= open
      invariant visited == visited0 ==> q.pending == pending0
      invariant ClosedUpTo(Dims(m), visited, cur, k)
      invariant Queued(q.pending, visited, open, prio)
    {
      visited, trail, open, prio :=
        TryVisitDahu(m, M, F, minImg, maxImg, dejaVu, q, cur, k, seeds, visited0, open0, pending0, visited, trail, open, prio);
    }
  }

  /** One turn of the outer loop (lines 24-36): pops a cell and
      expands it. Either more cells are visited or, with the same cells
      visited, fewer entries are pending. */
  method StepDahu(
    m: seq<seq<int>>, M: seq<seq<int>>,
    F: array2<int>, minImg: array2<int>, maxImg: array2<int>, dejaVu: array2<bool>, q: WorkQueue,
    ghost seeds: set<Cell>, ghost visited0: set<Cell>, ghost trail0: Visits, ghost open0: set<Cell>,
    ghost prio0: map<Cell, nat>)
    returns (ghost visited: set<Cell>, ghost trail: Visits, ghost open: set<Cell>, ghost prio: map<Cell, nat>)
    requires IsInterval(m, M) && Separate(F, minImg, maxImg) && q.pending != multiset{}
    requires DahuState(m, M, F, minImg, maxImg, dejaVu, seeds, visited0, trail0)
    requires Queued(q.pending, visited0, open0, prio0) && Settled(Dims(m), visited0, open0)
    modifies F, minImg, maxImg, dejaVu, q
    ensures DahuState(m, M, F, minImg, maxImg, dejaVu, seeds, visited, trail)
    ensures Queued(q.pending, visited, open, prio) && Settled(Dims(m), visited, open)
    ensures visited0 <= visited
    ensures visited == visited0 ==> |q.pending| < |old(q.pending)|
  {
    ghost var pending0 := q.pending;
    var cur := q.Pop();
    var d := q.distance;  // read and left unused, as in the source
    QueuedPop(pending0, visited0, open0, prio0, Entry(cur, d));
    visited, trail, open, prio :=
      ExpandDahu(m, M, F, minImg, maxImg, dejaVu, q, cur, seeds, visited0, trail0, open0 - {cur}, prio0);
    SettledExpand(Dims(m), visited0, open0, visited, open, cur);
  }

  /** The result grid `max_img - min_img` (line 38); where the two
      grids hold the extremes `low` and `high`, it holds their spread. */
  method Spread(minImg: array2<int>, maxImg: array2<int>, ghost low: map<Cell, int>, ghost high: map<Cell, int>)
    returns (range: array2<int>)
    requires Shape(minImg) == Shape(maxImg) && Holds(minImg, low) && Holds(maxImg, high)
    ensures fresh(range) && Shape(range) == Shape(minImg)
    ensures forall l, c :: InDomain(Shape(range), l, c) ==> range[l, c] == maxImg[l, c] - minImg[l, c]
    ensures forall p :: p in low && p in high ==> InDomain(Shape(range), p.l, p.c) && range[p.l, p.c] == high[p] - low[p]
  {
    var rows, cols := minImg.Length0, minImg.Length1;
    range := new int[rows, cols]((i, j) reads minImg, maxImg =>
      if 0 <= i < rows && 0 <= j < cols then maxImg[i, j] - minImg[i, j] else 0);
  }

  /** What the transform promises (lines 7-38). It fails on the first
      invalid seed; otherwise the visits form a forest rooted at the
      seeds, the values written satisfy the Dahu relations, every
      visited cell has all its neighbours visited (so with one seed or
      more the whole grid is visited), and the result at a visited cell
      is the spread max - min of the signal along its propagation path. */
  ghost predicate Transformed(
    m: seq<seq<int>>, M: seq<seq<int>>, seeds: seq<Cell>, r: Outcome<array2<int>>,
    visited: set<Cell>, trail: Visits, v: Values)
    reads if r.Success? then {r.value} else {}
  {
    && (r.Success? <==> forall i :: 0 <= i < |seeds| ==> ValidSeed(Dims(m), seeds[i]))
    && (r.Failure? ==>
          exists i :: 0 <= i < |seeds| && seeds[i] == r.badSeed && !ValidSeed(Dims(m), seeds[i]) &&
            forall j :: 0 <= j < i ==> ValidSeed(Dims(m), seeds[j]))
    && (r.Success? ==>
          && Shape(r.value) == Dims(m)
          && Forest(SeedSet(seeds), visited, trail)
          && v == Replay(m, M, SeedSet(seeds), trail)
          && DahuTree(m, M, SeedSet(seeds), visited, Parents(trail), v)
          && (forall p :: p in visited ==> Closed(Dims(m), visited, p))
          && (|seeds| > 0 ==> forall l, c :: InDomain(Dims(m), l, c) ==> Cell(l, c) in visited)
          && (forall p {:trigger p in visited} :: p in visited ==>
                InDomain(Dims(m), p.l, p.c) && r.value[p.l, p.c] == v.high[p] - v.low[p]))
  }

  /** The visits the propagation ends with, closed under adjacency,
      with `range` the spread of the extremes their replay reaches, make
      a successful transform. */
  lemma Finished(
    m: seq<seq<int>>, M: seq<seq<int>>, seeds: seq<Cell>, range: array2<int>, visited: set<Cell>, trail: Visits)
    requires IsInterval(m, M)
    requires forall i :: 0 <= i < |seeds| ==> ValidSeed(Dims(m), seeds[i])
    requires Forest(SeedSet(seeds), visited, trail)
    requires forall p :: p in visited ==> Closed(Dims(m), visited, p)
    requires Shape(range) == Dims(m)
    requires var v := Replay(m, M, SeedSet(seeds), trail);
      forall p :: p in v.low && p in v.high ==>
        InDomain(Shape(range), p.l, p.c) && range[p.l, p.c] == v.high[p] - v.low[p]
    ensures Transformed(m, M, seeds, Success(range), visited, trail, Replay(m, M, SeedSet(seeds), trail))
  {
    var shape, roots := Dims(m), SeedSet(seeds);
    ReplayKeys(m, M, roots, visited, trail);
    var v := Replay(m, M, roots, trail);
    forall p | p in visited
      ensures InDomain(shape, p.l, p.c) && range[p.l, p.c] == v.high[p] - v.low[p]
    {
      assert p in v.low && p in v.high;
    }
    ReplayIsTree(m, M, roots, visited, trail);
    ForestParents(roots, visited, trail);
    if |seeds| > 0 {
      assert seeds[0] in roots;
      forall l, c | InDomain(shape, l, c)
        ensures Cell(l, c) in visited
      {
        ClosedCoversGrid(shape, visited, seeds[0], l, c);
      }
    }
  }

  /** The transform (lines 7-38); see `Transformed`. */
  method DahuDistanceTransform(m: seq<seq<int>>, M: seq<seq<int>>, seeds: seq<Cell>)
    returns (r: Outcome<array2<int>>, ghost visited: set<Cell>, ghost trail: Visits, ghost v: Values)
    requires IsInterval(m, M)
    ensures r.Success? <==> forall i :: 0 <= i < |seeds| ==> ValidSeed(Dims(m), seeds[i])
    ensures r.Failure? ==> exists i :: 0 <= i < |seeds| && seeds[i] == r.badSeed && !ValidSeed(Dims(m), seeds[i])
    ensures r.Success? ==> Shape(r.value) == Dims(m)
    ensures Transformed(m, M, seeds, r, visited, trail, v)
  {
    var shape := Dims(m);
    var dejaVu := new bool[shape.0, shape.1]((_, _) => false);
    var minImage := new int[shape.0, shape.1];
    var maxImage := new int[shape.0, shape.1];
    var signal := new int[shape.0, shape.1];
    var q := new WorkQueue();
    trail, v := NoVisit, Values(map[], map[], map[]);

    var ok, bad;
    ghost var prio;
    ok, bad, visited, prio := SeedDahu(m, M, seeds, signal, minImage, maxImage, dejaVu, q);
    if !ok {
      r := Failure(bad);
      return;
    }
    ghost var open := visited;
    ghost var roots := visited;

    while !q.Empty()
      invariant DahuState(m, M, signal, minImage, maxImage, dejaVu, roots, visited, trail)
      invariant Queued(q.pending, visited, open, prio) && Settled(shape, visited, open)
      decreases |Domain(shape) - visited|, |q.pending|
    {
      ghost var visited0 := visited;
      visited, trail, open, prio :=
        StepDahu(m, M, signal, minImage, maxImage, dejaVu, q, roots, visited, trail, open, prio);
      if visited != visited0 {
        UnvisitedShrinks(shape, visited0, visited);
      }
    }
    WaitingEmpty(open, prio);

    v := Replay(m, M, roots, trail);
    var range := Spread(minImage, maxImage, v.low, v.high);
    r := Success(range);
    Finished(m, M, seeds, range, visited, trail);
  }
}
