/** The level-lines distance transform on an immersed grid
    (dahu/level_lines_distance_transform.py), on its working grids F
    and D. D is the visit marker as well as the result: a cell is
    reached exactly when its D is no longer UNSEEN. As in the Dahu
    transform, the grids hold at every step the values `Replay`
    rebuilds from the visits so far, and `LevelTree` states what they
    satisfy.

    `cumulative` selects the priority a reached cell is pushed with:
    its step `diff` as the source does (false), or its distance D
    (true), which makes D the total variation of F along the
    propagation path. */
module LevelLines {
  import opened Utils
  import opened Queue
  import opened Propagation
  import opened LevelSpec

  /** D is not UNSEEN exactly on the visited cells. */
  ghost predicate Seen(D: array2<int>, visited: set<Cell>)
    reads D
  {
    && (forall p {:trigger p in visited} :: p in visited ==> InDomain(Shape(D), p.l, p.c) && D[p.l, p.c] != UNSEEN)
    && (forall l, c {:trigger D[l, c]} :: 0 <= l < D.Length0 && 0 <= c < D.Length1 && D[l, c] != UNSEEN ==>
          Cell(l, c) in visited)
  }

  /** The working grids hold the signal and the distance of every cell
      that has them. */
  ghost predicate Mirror(F: array2<int>, D: array2<int>, v: Levels)
    reads F, D
  {
    Holds(F, v.signal) && Holds(D, v.dist)
  }

  /** What the propagation keeps true from one step to the next: the
      grids have the shape of the input, D marks the visited cells, and
      the grids hold the replay of the visits so far. */
  ghost predicate LevelState(
    m: seq<seq<int>>, M: seq<seq<int>>, F: array2<int>, D: array2<int>,
    seeds: set<Cell>, visited: set<Cell>, trail: Visits, cumulative: bool)
    reads F, D
  {
    && F != D && Shape(F) == Dims(m) && Shape(D) == Dims(m)
    && Seen(D, visited)
    && Forest(seeds, visited, trail)
    && Mirror(F, D, Replay(m, M, seeds, trail, cumulative))
  }

  /** The queue entries carry their cells' keys in the replay of the
      visits, and the cell being expanded has the key `d`. */
  ghost predicate KeysPending(
    m: seq<seq<int>>, M: seq<seq<int>>, seeds: set<Cell>, trail: Visits, pending: multiset<Entry>, cur: Cell, d: nat,
    cumulative: bool)
  {
    var v := Replay(m, M, seeds, trail, cumulative);
    HasKey(v, cur, d, cumulative) && Prioritised(pending, v, cumulative)
  }

  /** The bounds under which the transform runs: an interval grid of
      16-bit samples, on which D stays below UNSEEN. */
  ghost predicate Admissible(m: seq<seq<int>>, M: seq<seq<int>>, cumulative: bool)
  {
    IsInterval(m, M) && Samples(m, M) && Fits(Dims(m), cumulative)
  }

  /** Writes the signal and the distance of `p`, which marks it. */
  method WriteLevel(
    F: array2<int>, D: array2<int>, ghost visited: set<Cell>, ghost v: Levels, ghost w: Levels, p: Cell, f: int,
    dist: nat)
    requires F != D && Shape(D) == Shape(F) && dist != UNSEEN
    requires Mirror(F, D, v) && Seen(D, visited) && InDomain(Shape(F), p.l, p.c)
    requires w.signal == v.signal[p := f] && w.dist == v.dist[p := dist]
    modifies F, D
    ensures Mirror(F, D, w)
    ensures Seen(D, visited + {p})
  {
    F[p.l, p.c] := f;
    D[p.l, p.c] := dist;
  }

  /** Initialises one valid seed (lines 19-21): D = 0 and F = m there,
      and the seed is pushed with priority 0. */
  method StartSeed(
    m: seq<seq<int>>, M: seq<seq<int>>, seeds: seq<Cell>, i: nat, F: array2<int>, D: array2<int>, q: WorkQueue,
    cumulative: bool, ghost visited0: set<Cell>, ghost prio0: map<Cell, nat>)
    returns (ghost visited: set<Cell>, ghost prio: map<Cell, nat>)
    requires i < |seeds| && IsImage(m) && ValidSeed(Dims(m), seeds[i])
    requires ValidUpTo(Dims(m), seeds, i)
    requires visited0 == SeedsUpTo(seeds, i)
    requires LevelState(m, M, F, D, visited0, visited0, NoVisit, cumulative)
    requires Queued(q.pending, visited0, visited0, prio0) && ZeroPriorities(prio0)
    requires Prioritised(q.pending, Start(m, visited0), cumulative)
    modifies F, D, q
    ensures ValidUpTo(Dims(m), seeds, i + 1)
    ensures visited == SeedsUpTo(seeds, i + 1)
    ensures LevelState(m, M, F, D, visited, visited, NoVisit, cumulative)
    ensures Queued(q.pending, visited, visited, prio) && ZeroPriorities(prio)
    ensures Prioritised(q.pending, Start(m, visited), cumulative)
  {
    var s := seeds[i];
    var l, c := s.l, s.c;
    StartAdd(m, visited0, s);
    WriteLevel(F, D, visited0, Start(m, visited0), Start(m, visited0 + {s}), s, m[l][c], 0);
    QueuedSeed(q.pending, visited0, prio0, s);
    PrioritisedSeed(m, q.pending, visited0, s, cumulative);
    q.Push(s, 0);
    visited, prio := visited0 + {s}, prio0[s := 0];
  }

  /** Validates and initialises the seeds in turn (lines 17-21); the
      first seed outside the grid or not a 2-face stops the transform. */
  method SeedLevels(
    m: seq<seq<int>>, M: seq<seq<int>>, seeds: seq<Cell>, F: array2<int>, D: array2<int>, q: WorkQueue,
    cumulative: bool)
    returns (ok: bool, bad: Cell, ghost visited: set<Cell>, ghost prio: map<Cell, nat>)
    requires IsImage(m) && F != D && Shape(F) == Dims(m) && Shape(D) == Dims(m)
    requires Seen(D, {}) && q.pending == multiset{}
    modifies F, D, q
    ensures ok <==> forall i :: 0 <= i < |seeds| ==> ValidSeed(Dims(m), seeds[i])
    ensures !ok ==>
      exists i :: 0 <= i < |seeds| && seeds[i] == bad && !ValidSeed(Dims(m), seeds[i]) &&
        forall j :: 0 <= j < i ==> ValidSeed(Dims(m), seeds[j])
    ensures ok ==>
      && visited == SeedSet(seeds)
      && LevelState(m, M, F, D, visited, visited, NoVisit, cumulative)
      && Queued(q.pending, visited, visited, prio)
      && Prioritised(q.pending, Start(m, visited), cumulative)
  {
    var shape := Dims(m);
    visited, prio := {}, map[];
    for i := 0 to |seeds|
      invariant ValidUpTo(shape, seeds, i)
      invariant visited == SeedsUpTo(seeds, i)
      invariant LevelState(m, M, F, D, visited, visited, NoVisit, cumulative)
      invariant Queued(q.pending, visited, visited, prio) && ZeroPriorities(prio)
      invariant Prioritised(q.pending, Start(m, visited), cumulative)
    {
      var l, c := seeds[i].l, seeds[i].c;
      if !(InDomain(shape, l, c) && IsTwoFace(l, c)) {
        ok, bad := false, Cell(l, c);
        ValidUpToAll(shape, seeds, i);
        assert seeds[i] == bad && !ValidSeed(shape, seeds[i]);
        return;
      }
      visited, prio := StartSeed(m, M, seeds, i, F, D, q, cumulative, visited, prio);
    }
    SeedsUpToWhole(seeds);
    ValidUpToAll(shape, seeds, |seeds|);
    ok, bad := true, Cell(0, 0);
  }

  /** Records the visit of `n` from `cur` (lines 29-31): writes the
      signal `f`, `cur`'s signal clamped into `n`'s interval, and the
      distance `d + diff`, with `d` the key of `cur` and `diff` the
      absolute change of the signal. */
  method WriteVisit(
    m: seq<seq<int>>, M: seq<seq<int>>, F: array2<int>, D: array2<int>, cur: Cell, n: Cell, d: nat,
    f: int, diff: nat, cumulative: bool, ghost seeds: set<Cell>, ghost visited: set<Cell>, ghost trail: Visits)
    requires Admissible(m, M, cumulative)
    requires LevelState(m, M, F, D, seeds, visited, trail, cumulative)
    requires cur in visited && n !in visited && Adjacent(cur, n) && InDomain(Dims(m), n.l, n.c)
    requires var v := Replay(m, M, seeds, trail, cumulative);
      && HasKey(v, cur, d, cumulative)
      && f == Clamp(v.signal[cur], At(m, n), At(M, n)) && diff == Abs(v.signal[cur] - f)
    modifies F, D
    ensures LevelState(m, M, F, D, seeds, visited + {n}, Then(trail, cur, n), cumulative)
    ensures var w := Replay(m, M, seeds, Then(trail, cur, n), cumulative);
      && Known(w, cur) && Known(w, n)
      && diff == Abs(w.signal[cur] - w.signal[n]) && diff == w.step[n] && w.dist[n] == d + diff
  {
    VisitStep(m, M, seeds, visited, trail, cur, n, cumulative, d, f, diff);
    WriteLevel(F, D, visited, Replay(m, M, seeds, trail, cumulative), Replay(m, M, seeds, Then(trail, cur, n), cumulative),
               n, f, d + diff);
    ForestVisit(seeds, visited, trail, cur, n);
  }

  /** Visits the neighbour `n` of `cur` whose D is UNSEEN (lines 29-31):
      F at `n` is F at `cur` clamped into `n`'s interval, `diff` is the
      absolute change of F, and D at `n` is `d + diff`. */
  method VisitLevel(
    m: seq<seq<int>>, M: seq<seq<int>>, F: array2<int>, D: array2<int>, cur: Cell, n: Cell, d: nat,
    cumulative: bool, ghost seeds: set<Cell>, ghost visited: set<Cell>, ghost trail: Visits)
    returns (diff: nat)
    requires Admissible(m, M, cumulative)
    requires LevelState(m, M, F, D, seeds, visited, trail, cumulative)
    requires cur in visited && Adjacent(cur, n) && InDomain(Dims(m), n.l, n.c) && D[n.l, n.c] == UNSEEN
    requires HasKey(Replay(m, M, seeds, trail, cumulative), cur, d, cumulative)
    modifies F, D
    ensures LevelState(m, M, F, D, seeds, visited + {n}, Then(trail, cur, n), cumulative)
    ensures n !in visited
    ensures var v := Replay(m, M, seeds, Then(trail, cur, n), cumulative);
      && Known(v, cur) && Known(v, n)
      && diff == Abs(v.signal[cur] - v.signal[n]) && diff == v.step[n] && v.dist[n] == d + diff
  {
    ghost var v := Replay(m, M, seeds, trail, cumulative);
    var l, c, nl, nc := cur.l, cur.c, n.l, n.c;
    var f := Clamp(F[l, c], m[nl][nc], M[nl][nc]);
    diff := Abs(F[l, c] - f);
    assert F[l, c] == v.signal[cur] && m[nl][nc] == At(m, n) && M[nl][nc] == At(M, n);
    WriteVisit(m, M, F, D, cur, n, d, f, diff, cumulative, seeds, visited, trail);
  }

  /** Visits `n` from `cur` and pushes it with its key (lines 29-32):
      `diff` as written, D with the cumulative push. */
  method PushVisit(
    m: seq<seq<int>>, M: seq<seq<int>>, F: array2<int>, D: array2<int>, q: WorkQueue, cur: Cell, n: Cell, d: nat,
    cumulative: bool, ghost seeds: set<Cell>, ghost visited: set<Cell>, ghost trail: Visits,
    ghost open: set<Cell>, ghost prio: map<Cell, nat>)
    returns (ghost prio': map<Cell, nat>)
    requires Admissible(m, M, cumulative)
    requires LevelState(m, M, F, D, seeds, visited, trail, cumulative)
    requires cur in visited && Adjacent(cur, n) && InDomain(Dims(m), n.l, n.c) && D[n.l, n.c] == UNSEEN
    requires Queued(q.pending, visited, open, prio)
    requires KeysPending(m, M, seeds, trail, q.pending, cur, d, cumulative)
    modifies F, D, q
    ensures n !in visited
    ensures LevelState(m, M, F, D, seeds, visited + {n}, Then(trail, cur, n), cumulative)
    ensures Queued(q.pending, visited + {n}, open + {n}, prio')
    ensures KeysPending(m, M, seeds, Then(trail, cur, n), q.pending, cur, d, cumulative)
  {
    ghost var v := Replay(m, M, seeds, trail, cumulative);
    ReplayKeys(m, M, seeds, visited, trail, cumulative);
    var diff := VisitLevel(m, M, F, D, cur, n, d, cumulative, seeds, visited, trail);
    var key := if cumulative then d + diff else diff;
    QueuedVisit(q.pending, visited, open, prio, n, key);
    PrioritisedVisit(q.pending, visited, v, cur, n, At(m, n), At(M, n), cumulative);
    q.Push(n, key);
    prio' := prio[n := key];
  }

  /** The `k`-th move of the inner loop (lines 27-32): the neighbour
      `n` of `cur` in that direction, when it is in the grid and its D
      is UNSEEN, is visited and pushed with its key: `diff` as written,
      D with the cumulative push. The state before the move is the one
      reached after the first `k` moves from the expansion's start
      (`visited0`, `open0`, `pending0`). */
  method TryVisitLevel(
    m: seq<seq<int>>, M: seq<seq<int>>, F: array2<int>, D: array2<int>, q: WorkQueue, cur: Cell, k: nat, d: nat,
    cumulative: bool, ghost seeds: set<Cell>, ghost visited0: set<Cell>, ghost open0: set<Cell>,
    ghost pending0: multiset<Entry>, ghost visitedK: set<Cell>, ghost trailK: Visits, ghost openK: set<Cell>,
    ghost prioK: map<Cell, nat>)
    returns (ghost visited: set<Cell>, ghost trail: Visits, ghost open: set<Cell>, ghost prio: map<Cell, nat>)
    requires Admissible(m, M, cumulative) && k < |C4| && cur in visited0
    requires LevelState(m, M, F, D, seeds, visitedK, trailK, cumulative)
    requires visited0 <= visitedK && open0 <= openK && visitedK - visited0 <= openK
    requires visitedK == visited0 ==> q.pending == pending0
    requires ClosedUpTo(Dims(m), visitedK, cur, k)
    requires Queued(q.pending, visitedK, openK, prioK)
    requires KeysPending(m, M, seeds, trailK, q.pending, cur, d, cumulative)
    modifies F, D, q
    ensures LevelState(m, M, F, D, seeds, visited, trail, cumulative)
    ensures visited0 <= visited && open0 <= open && visited - visited0 <= open
    ensures visited == visited0 ==> q.pending == pending0
    ensures ClosedUpTo(Dims(m), visited, cur, k + 1)
    ensures Queued(q.pending, visited, open, prio)
    ensures KeysPending(m, M, seeds, trail, q.pending, cur, d, cumulative)
  {
    visited, trail, open, prio := visitedK, trailK, openK, prioK;
    var n := Shift(cur, C4[k]);
    ShiftAdjacent(cur, k);
    var nl, nc := n.l, n.c;
    if InDomain(Dims(m), nl, nc) && D[nl, nc] != UNSEEN {
      assert Cell(nl, nc) in visited;
    }
    if InDomain(Dims(m), nl, nc) && D[nl, nc] == UNSEEN {
      prio := PushVisit(m, M, F, D, q, cur, n, d, cumulative, seeds, visited, trail, open, prio);
      visited, trail, open := visited + {n}, Then(trail, cur, n), open + {n};
    }
    ClosedStep(Dims(m), visitedK, visited, cur, k);
  }

  /** One turn of the outer loop after the pop (lines 26-32): every
      in-domain 4-neighbour of `cur` whose D is UNSEEN is visited. */
  method ExpandLevel(
    m: seq<seq<int>>, M: seq<seq<int>>, F: array2<int>, D: array2<int>, q: WorkQueue, cur: Cell, d: nat,
    cumulative: bool, ghost seeds: set<Cell>, ghost visited0: set<Cell>, ghost trail0: Visits,
    ghost open0: set<Cell>, ghost prio0: map<Cell, nat>)
    returns (ghost visited: set<Cell>, ghost trail: Visits, ghost open: set<Cell>, ghost prio: map<Cell, nat>)
    requires Admissible(m, M, cumulative)
    requires LevelState(m, M, F, D, seeds, visited0, trail0, cumulative)
    requires cur in visited0
    requires Queued(q.pending, visited0, open0, prio0)
    requires KeysPending(m, M, seeds, trail0, q.pending, cur, d, cumulative)
    modifies F, D, q
    ensures LevelState(m, M, F, D, seeds, visited, trail, cumulative)
    ensures visited0 <= visited && open0 <= open && visited - visited0 <= open
    ensures visited == visited0 ==> q.pending == old(q.pending)
    ensures Closed(Dims(m), visited, cur)
    ensures Queued(q.pending, visited, open, prio)
    ensures KeysPending(m, M, seeds, trail, q.pending, cur, d, cumulative)
  {
    ghost var pending0 := q.pending;
    visited, trail, open, prio := visited0, trail0, open0, prio0;
    for k := 0 to |C4|
      invariant LevelState(m, M, F, D, seeds, visited, trail, cumulative)
      invariant visited0 <= visited && open0 <= open && visited - visited0 <= open
      invariant visited == visited0 ==> q.pending == pending0
      invariant ClosedUpTo(Dims(m), visited, cur, k)
      invariant Queued(q.pending, visited, open, prio)
      invariant KeysPending(m, M, seeds, trail, q.pending, cur, d, cumulative)
    {
      visited, trail, open, prio :=
        TryVisitLevel(m, M, F, D, q, cur, k, d, cumulative, seeds, visited0, open0, pending0, visited, trail, open, prio);
    }
  }

  /** One turn of the outer loop (lines 23-32): pops a cell, reads the
      queue's distance, which is that cell's key, and expands the cell.
      Either more cells are visited or, with the same cells visited,
      fewer entries are pending. */
  method StepLevel(
    m: seq<seq<int>>, M: seq<seq<int>>, F: array2<int>, D: array2<int>, q: WorkQueue, cumulative: bool,
    ghost seeds: set<Cell>, ghost visited0: set<Cell>, ghost trail0: Visits, ghost open0: set<Cell>,
    ghost prio0: map<Cell, nat>)
    returns (ghost visited: set<Cell>, ghost trail: Visits, ghost open: set<Cell>, ghost prio: map<Cell, nat>)
    requires Admissible(m, M, cumulative) && q.pending != multiset{}
    requires LevelState(m, M, F, D, seeds, visited0, trail0, cumulative)
    requires Queued(q.pending, visited0, open0, prio0) && Settled(Dims(m), visited0, open0)
    requires Prioritised(q.pending, Replay(m, M, seeds, trail0, cumulative), cumulative)
    modifies F, D, q
    ensures LevelState(m, M, F, D, seeds, visited, trail, cumulative)
    ensures Queued(q.pending, visited, open, prio) && Settled(Dims(m), visited, open)
    ensures Prioritised(q.pending, Replay(m, M, seeds, trail, cumulative), cumulative)
    ensures visited0 <= visited
    ensures visited == visited0 ==> |q.pending| < |old(q.pending)|
  {
    ghost var pending0 := q.pending;
    var cur := q.Pop();
    var d := q.distance;
    QueuedPop(pending0, visited0, open0, prio0, Entry(cur, d));
    PrioritisedPop(pending0, Replay(m, M, seeds, trail0, cumulative), cumulative, Entry(cur, d));
    visited, trail, open, prio :=
      ExpandLevel(m, M, F, D, q, cur, d, cumulative, seeds, visited0, trail0, open0 - {cur}, prio0);
    SettledExpand(Dims(m), visited0, open0, visited, open, cur);
  }

  /** What a run of the transform yields. It fails on the first invalid
      seed. Otherwise the visits form a forest rooted at the seeds; the
      values written (F and D) satisfy the level-lines relations; every
      visited cell has all its 4-neighbours visited, so with one seed
      or more the whole grid is; F and D hold the values at every
      visited cell; and D is UNSEEN exactly at the cells not visited. */
  ghost predicate Transformed(
    m: seq<seq<int>>, M: seq<seq<int>>, seeds: seq<Cell>, cumulative: bool,
    r: Outcome<(array2<int>, array2<int>)>, visited: set<Cell>, trail: Visits, v: Levels)
    reads if r.Success? then {r.value.0, r.value.1} else {}
  {
    && (r.Success? <==> forall i :: 0 <= i < |seeds| ==> ValidSeed(Dims(m), seeds[i]))
    && (r.Failure? ==>
          exists i :: 0 <= i < |seeds| && seeds[i] == r.badSeed && !ValidSeed(Dims(m), seeds[i]) &&
            forall j :: 0 <= j < i ==> ValidSeed(Dims(m), seeds[j]))
    && (r.Success? ==>
          var (F, D) := r.value;
          && Shape(F) == Dims(m) && Shape(D) == Dims(m)
          && Forest(SeedSet(seeds), visited, trail)
          && v == Replay(m, M, SeedSet(seeds), trail, cumulative)
          && LevelTree(m, M, SeedSet(seeds), visited, Parents(trail), v, cumulative)
          && (forall p :: p in visited ==> Closed(Dims(m), visited, p))
          && (|seeds| > 0 ==> forall l, c :: InDomain(Dims(m), l, c) ==> Cell(l, c) in visited)
          && (forall p {:trigger p in visited} :: p in visited ==>
                InDomain(Dims(m), p.l, p.c) && F[p.l, p.c] == v.signal[p] && D[p.l, p.c] == v.dist[p])
          && (forall l, c :: InDomain(Dims(m), l, c) ==> (D[l, c] == UNSEEN <==> Cell(l, c) !in visited)))
  }

  /** Once every visited cell is expanded, the grids are the result. */
  lemma Finished(
    m: seq<seq<int>>, M: seq<seq<int>>, seeds: seq<Cell>, cumulative: bool, F: array2<int>, D: array2<int>,
    visited: set<Cell>, trail: Visits)
    requires Admissible(m, M, cumulative)
    requires forall i :: 0 <= i < |seeds| ==> ValidSeed(Dims(m), seeds[i])
    requires LevelState(m, M, F, D, SeedSet(seeds), visited, trail, cumulative)
    requires forall p :: p in visited ==> Closed(Dims(m), visited, p)
    ensures Transformed(m, M, seeds, cumulative, Success((F, D)), visited, trail, Replay(m, M, SeedSet(seeds), trail, cumulative))
  {
    var shape, roots := Dims(m), SeedSet(seeds);
    ReplayIsTree(m, M, roots, visited, trail, cumulative);
    if |seeds| > 0 {
      assert seeds[0] in roots;
      forall l, c | InDomain(shape, l, c)
        ensures Cell(l, c) in visited
      {
        ClosedCoversGrid(shape, visited, seeds[0], l, c);
      }
    }
    forall l, c | InDomain(shape, l, c)
      ensures D[l, c] == UNSEEN <==> Cell(l, c) !in visited
    {
      var p := Cell(l, c);
      assert p.l == l && p.c == c;
    }
  }

  /** The propagation (lines 7-34) with the chosen push. */
  method Propagate(m: seq<seq<int>>, M: seq<seq<int>>, seeds: seq<Cell>, cumulative: bool)
    returns (r: Outcome<(array2<int>, array2<int>)>, ghost visited: set<Cell>, ghost trail: Visits, ghost v: Levels)
    requires Admissible(m, M, cumulative)
    ensures r.Success? <==> forall i :: 0 <= i < |seeds| ==> ValidSeed(Dims(m), seeds[i])
    ensures r.Failure? ==> exists i :: 0 <= i < |seeds| && seeds[i] == r.badSeed && !ValidSeed(Dims(m), seeds[i])
    ensures r.Success? ==> Shape(r.value.0) == Dims(m) && Shape(r.value.1) == Dims(m)
    ensures Transformed(m, M, seeds, cumulative, r, visited, trail, v)
  {
    var shape := Dims(m);
    var signal := new int[shape.0, shape.1];
    var D := new int[shape.0, shape.1]((_, _) => UNSEEN);
    var q := new WorkQueue();
    trail, v := NoVisit, Levels(map[], map[], map[]);

    var ok, bad;
    ghost var prio;
    ok, bad, visited, prio := SeedLevels(m, M, seeds, signal, D, q, cumulative);
    if !ok {
      r := Failure(bad);
      return;
    }
    ghost var open := visited;
    ghost var roots := visited;

    while !q.Empty()
      invariant LevelState(m, M, signal, D, roots, visited, trail, cumulative)
      invariant Queued(q.pending, visited, open, prio) && Settled(shape, visited, open)
      invariant Prioritised(q.pending, Replay(m, M, roots, trail, cumulative), cumulative)
      decreases |Domain(shape) - visited|, |q.pending|
    {
      ghost var visited0 := visited;
      visited, trail, open, prio :=
        StepLevel(m, M, signal, D, q, cumulative, roots, visited, trail, open, prio);
      if visited != visited0 {
        UnvisitedShrinks(shape, visited0, visited);
      }
    }
    WaitingEmpty(open, prio);
    v := Replay(m, M, roots, trail, cumulative);
    r := Success((signal, D));
    Finished(m, M, seeds, cumulative, signal, D, visited, trail);
  }

  /** The transform as written: each reached cell is pushed with its
      step, so D at a cell is its parent's step plus its own. */
  method LevelLinesDistanceTransform(m: seq<seq<int>>, M: seq<seq<int>>, seeds: seq<Cell>)
    returns (r: Outcome<(array2<int>, array2<int>)>, ghost visited: set<Cell>, ghost trail: Visits, ghost v: Levels)
    requires IsInterval(m, M) && Samples(m, M)
    ensures r.Success? <==> forall i :: 0 <= i < |seeds| ==> ValidSeed(Dims(m), seeds[i])
    ensures r.Failure? ==> exists i :: 0 <= i < |seeds| && seeds[i] == r.badSeed && !ValidSeed(Dims(m), seeds[i])
    ensures r.Success? ==> Shape(r.value.0) == Dims(m) && Shape(r.value.1) == Dims(m)
    ensures Transformed(m, M, seeds, false, r, visited, trail, v)
  {
    r, visited, trail, v := Propagate(m, M, seeds, false);
  }

  /** The transform with each reached cell pushed with its D, so that D
      at a cell is its parent's D plus its own step: the total variation
      of F along its propagation path. */
  method CumulativeDistanceTransform(m: seq<seq<int>>, M: seq<seq<int>>, seeds: seq<Cell>)
    returns (r: Outcome<(array2<int>, array2<int>)>, ghost visited: set<Cell>, ghost trail: Visits, ghost v: Levels)
    requires IsInterval(m, M) && Samples(m, M) && MAX_SAMPLE * |Domain(Dims(m))| < UNSEEN
    ensures r.Success? <==> forall i :: 0 <= i < |seeds| ==> ValidSeed(Dims(m), seeds[i])
    ensures r.Failure? ==> exists i :: 0 <= i < |seeds| && seeds[i] == r.badSeed && !ValidSeed(Dims(m), seeds[i])
    ensures r.Success? ==> Shape(r.value.0) == Dims(m) && Shape(r.value.1) == Dims(m)
    ensures Transformed(m, M, seeds, true, r, visited, trail, v)
  {
    r, visited, trail, v := Propagate(m, M, seeds, true);
  }
}
