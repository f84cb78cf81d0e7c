# dahu distance transforms in Dafny

This project models the core of `dahu`, a tool for interactive
foreground/background seeding. Both of its distance transforms work on an
immersed image. That is a double-resolution grid in which every cell has an
interval `[m, M]`. The pixels sit at the 2-faces (both coordinates even) and
have `m = M`.

Both transforms share one traversal. They validate each seed and start it
with priority 0. They then pop cells from a work queue. Every 4-neighbour of
a popped cell that is still unvisited receives the popped cell's signal `F`,
clamped into the neighbour's interval. The neighbour is then marked and
pushed with the absolute change of `F` as its priority.

- **Dahu transform** (`dahu/dahu_distance_transform.py`). Each cell also
  records the lowest and the highest signal met on the way from its seed.
  The result is `max_img - min_img`.
- **Level-lines transform** (`dahu/level_lines_distance_transform.py`). Each
  cell records a distance `D = d + diff`, where `d` is the priority of the
  popped cell. Unvisited cells hold `UNSEEN`, the largest `uint32`.
- **Helpers** (`dahu/utils.py`): the neighbourhood tables, the domain test,
  `clamp` and the 2-face test.
- **Padding** (`dt/border.py`): padding an image by a one-cell ring.

Layout:

- `utils.dfy` holds module `Utils`.
- `queue.dfy` holds module `Queue`, the interface of the work queue the
  transforms use.
- `propagation.dfy` holds module `Propagation`. It describes the shared
  traversal on ghost bookkeeping:
  - the visits in order (`Visits`);
  - the forest they form (`Forest`);
  - closure under adjacency;
  - the queue bookkeeping.
- `dahu_spec.dfy` (`DahuSpec`) and `levellines_spec.dfy` (`LevelSpec`) state
  on values what each transform writes. `Replay` rebuilds the values from the
  visits. `DahuTree` and `LevelTree` give the relations those values satisfy,
  proved for every replay.
- `dahu.dfy` (`Dahu`) and `levellines.dfy` (`LevelLines`) are the transforms
  themselves. They are imperative methods over `array2` grids. At every step,
  their grids hold the replay of the visits so far.
- `border.dfy` (`Border`) is the padding.

The queue is modelled as the multiset of pending entries. `Pop` may return
any of them, so every property below holds whatever order the queue pops
in.

## Model

| member | source | states |
|---|---|---|
| Utils.Clamp | dahu/utils.py:9-15 | On a non-empty interval the result lies in it and equals `v` exactly when `v` does; below `vmin` the result is `vmin` whatever the interval; above `vmax` and not below `vmin` it is `vmax` |
| Utils.ClampNearest | dahu/utils.py:9-15 | No point of a non-empty interval is closer to `v` than its clamp |
| Utils.ClampIdempotent | dahu/utils.py:9-15 | Clamping twice into the same interval is clamping once |
| Utils.ClampPoint | dahu/utils.py:9-15 | Clamping into a one-point interval `[k, k]` (a 2-face) always gives `k` |
| Utils.InDomain | dahu/utils.py:5-6 | The domain test; `Utils.DomainCells` states what it accepts |
| Utils.DomainCells | dahu/utils.py:5-6 | `in_domain` accepts exactly the cells of the rectangle `[0, rows) x [0, cols)` |
| Utils.IsTwoFace | dahu/utils.py:18-19 | A cell is a 2-face exactly when both of its coordinates are twice an integer |
| Utils.C4Exact | dahu/utils.py:1 | C4 holds exactly the four unit axis moves, each once |
| Utils.C8Exact | dahu/utils.py:2 | C8 holds exactly the eight non-null moves of at most one step per axis, each once |
| Utils.NeighbourhoodsSymmetric | dahu/utils.py:1-2 | Both tables are closed under negation, and C4 is contained in C8 |
| Utils.ShiftAdjacent | dahu/dahu_distance_transform.py:27-28 | `(l + dl, c + dc)` for a move of C4 is a 4-neighbour of `(l, c)` |
| Utils.TwoFaceIsPixel | dahu/utils.py:18-19 | On the `(2h-1) x (2w-1)` immersed grid, the in-domain 2-faces are exactly the cells `(2i, 2j)` of the pixels of the `h x w` image |
| Queue.WorkQueue.constructor | dahu/dahu_distance_transform.py:14 | A new queue has nothing pending |
| Queue.WorkQueue.Push | dahu/dahu_distance_transform.py:36 | Push adds one entry `(cell, priority)` and leaves `distance` unchanged |
| Queue.WorkQueue.Empty | dahu/dahu_distance_transform.py:24 | The queue is empty exactly when no entry is pending |
| Queue.WorkQueue.Pop | dahu/dahu_distance_transform.py:25-26 | Pop removes one pending entry and returns its cell; `distance` becomes that entry's priority |
| Propagation.ValidSeed | dahu/dahu_distance_transform.py:17 | A seed passes the check exactly when it is a cell of the grid with both coordinates even, that is, a pixel of the immersed image |
| Propagation.ValidUpToAll | dahu/dahu_distance_transform.py:16-17 | The seeds checked so far pass the seed check exactly when each of them is in the domain and a 2-face |
| Propagation.MarkedVisited | dahu/dahu_distance_transform.py:29 | A cell marked in `deja_vu` is a visited cell |
| Propagation.ClosedStep | dahu/dahu_distance_transform.py:27-29 | Handling move `k` of C4 leaves the first `k + 1` in-domain neighbours visited |
| Propagation.ForestParents | dahu/dahu_distance_transform.py:29-35 | The seeds are visited, the cells with a parent are exactly the other visited cells, and every parent is a visited 4-neighbour |
| Propagation.ForestVisit | dahu/dahu_distance_transform.py:29-35 | Visiting an unvisited 4-neighbour of a visited cell extends the visit forest |
| Propagation.PathFromSeed | dahu/dahu_distance_transform.py:24-36 | Every visited cell ends a chain of 4-neighbours that starts at a seed and follows parent links |
| Propagation.ClosedCoversGrid | dahu/dahu_distance_transform.py:24-36 | A set of cells that contains one in-domain cell and every in-domain neighbour of each of its cells is the whole grid |
| Propagation.SettledExpand | dahu/dahu_distance_transform.py:27-36 | After the popped cell is expanded, every visited cell not waiting in the queue has all its neighbours visited |
| Propagation.UnvisitedShrinks | dahu/dahu_distance_transform.py:24 | Visiting a new in-domain cell strictly shrinks the set of unvisited cells, which bounds the main loop |
| Propagation.QueuedSeed | dahu/dahu_distance_transform.py:22 | Pushing a seed with priority 0 keeps every queued cell visited and every open cell's entry pending |
| Propagation.QueuedVisit | dahu/dahu_distance_transform.py:36 | Pushing a newly visited cell keeps the queue bookkeeping and opens that cell |
| Propagation.QueuedPop | dahu/dahu_distance_transform.py:25 | Popping an entry closes its cell and keeps every other open cell's entry pending |
| Propagation.WaitingEmpty | dahu/dahu_distance_transform.py:24 | Once the queue is empty, no visited cell is still waiting to be expanded |
| DahuSpec.Start | dahu/dahu_distance_transform.py:18-20 | The seed loop gives F, min and max values at exactly the seeds |
| DahuSpec.Reach | dahu/dahu_distance_transform.py:30-34 | At the reached cell, F lies in its interval and between the new min and max, and the new extremes contain those of the cell it was reached from |
| DahuSpec.Replay | dahu/dahu_distance_transform.py:16-36 | The F, min and max values the loops write, rebuilt from the visits; `DahuSpec.ReplayKeys` and `DahuSpec.ReplayIsTree` state what they are |
| DahuSpec.ReplayKeys | dahu/dahu_distance_transform.py:30-35 | Replaying the visits gives values to exactly the visited cells |
| DahuSpec.StartAdd | dahu/dahu_distance_transform.py:18-21 | Starting one more seed writes `m` into F, min and max there and changes nothing else |
| DahuSpec.IntervalsVisit | dahu/dahu_distance_transform.py:30-34 | A visit keeps F in `[m, M]` and between min and max at every visited cell |
| DahuSpec.SeedsVisit | dahu/dahu_distance_transform.py:30-35 | Visiting a non-seed cell keeps `F = min = max = m` at every seed |
| DahuSpec.LinksVisit | dahu/dahu_distance_transform.py:30-34 | A visit adds the relation of the new cell to its parent (clamped F, extended min and max) and keeps all the others |
| DahuSpec.TreeVisit | dahu/dahu_distance_transform.py:30-35 | A visit keeps all the Dahu relations |
| DahuSpec.TreeStart | dahu/dahu_distance_transform.py:16-22 | The started seeds alone satisfy the Dahu relations |
| DahuSpec.ReplayThen | dahu/dahu_distance_transform.py:30-34 | Replaying one more visit from a cell with values applies the visit step to the earlier replay |
| DahuSpec.ReachWrites | dahu/dahu_distance_transform.py:30-34 | A visit step writes exactly the clamped F and the new min and max at the new cell, and leaves the cell it came from unchanged |
| DahuSpec.ReplayStep | dahu/dahu_distance_transform.py:30-35 | If the earlier visits satisfy the Dahu relations, so do the visits with one more added |
| DahuSpec.ReplayIsTree | dahu/dahu_distance_transform.py:16-36 | Every replay of a visit forest satisfies the Dahu relations: values exactly on the visited cells, F in `[m, M]`, seeds at `m`, every cell linked to its parent |
| DahuSpec.ChainExtremes | dahu/dahu_distance_transform.py:33-34 | At the end of a chain, min and max bound every F on the chain, and both are attained on it |
| DahuSpec.TreeChained | dahu/dahu_distance_transform.py:33-34 | A seed path through a tree that satisfies the Dahu relations is a min/max chain |
| DahuSpec.DahuIsPathSpread | dahu/dahu_distance_transform.py:33-38 | At every visited cell, `max - min` is the spread of F along the propagation path from a seed: every F on it lies between the two, and both are attained |
| DahuSpec.FlatReplay | dahu/dahu_distance_transform.py:30-34 | Where `m = M = k` on every visited cell, F, min and max are all `k`, so the distance is 0 |
| Dahu.WriteCell | dahu/dahu_distance_transform.py:31-35 | After the writes, the grids hold the given values updated at one cell, and `deja_vu` marks that cell too |
| Dahu.StartSeed | dahu/dahu_distance_transform.py:18-22 | Initialising one seed adds it to the visited cells, the grids and the queue with priority 0 |
| Dahu.SeedDahu | dahu/dahu_distance_transform.py:16-22 | Succeeds exactly when every seed is in the domain and a 2-face; otherwise reports the first bad seed; on success, the seeds are visited, written and queued |
| Dahu.WriteVisit | dahu/dahu_distance_transform.py:31-35 | The writes of a visit make the grids hold the replay of the extended visits |
| Dahu.VisitDahu | dahu/dahu_distance_transform.py:30-35 | Visiting an unmarked neighbour extends the visits; the grids hold their replay, and the pushed `diff` is the absolute change of F between the two cells |
| Dahu.TryVisitDahu | dahu/dahu_distance_transform.py:28-36 | Handling one move of C4 keeps the grids, the marks and the queue consistent, and leaves that neighbour visited if it is in the domain |
| Dahu.ExpandDahu | dahu/dahu_distance_transform.py:27-36 | After the inner loop every in-domain neighbour of the popped cell is visited, and the state stays consistent |
| Dahu.StepDahu | dahu/dahu_distance_transform.py:24-36 | One pop-and-expand keeps the state consistent; either more cells are visited or fewer entries are pending |
| Dahu.Spread | dahu/dahu_distance_transform.py:38 | The result grid is `max_img - min_img` cell by cell, and so the spread `high - low` wherever the extremes are known |
| Dahu.Finished | dahu/dahu_distance_transform.py:7-38 | A closed visit forest whose replay's spread is in the result grid is a successful transform |
| Dahu.DahuDistanceTransform | dahu/dahu_distance_transform.py:7-38 | Fails exactly when some seed is invalid, reporting the first. Otherwise: the visits form a forest rooted at the seeds; the values satisfy the Dahu relations; every cell is visited when there is a seed; the result at each visited cell is `max - min` of its replay |
| LevelSpec.Start | dahu/level_lines_distance_transform.py:19-21 | The seed loop gives F, the step and D values at exactly the seeds |
| LevelSpec.Reach | dahu/level_lines_distance_transform.py:29-31 | F at the reached cell lies in its interval; its step is the absolute change of F; its D is at least the popped key, and every other cell keeps its values and its key |
| LevelSpec.Replay | dahu/level_lines_distance_transform.py:17-32 | The F, step and D values the loops write and push, rebuilt from the visits; `LevelSpec.ReplayKeys` and `LevelSpec.ReplayIsTree` state what they are |
| LevelSpec.ReplayKeys | dahu/level_lines_distance_transform.py:29-31 | Replaying the visits gives values to exactly the visited cells |
| LevelSpec.StartAdd | dahu/level_lines_distance_transform.py:19-21 | Starting one more seed writes `F = m` and `D = 0` there and changes nothing else |
| LevelSpec.IntervalsVisit | dahu/level_lines_distance_transform.py:29 | A visit keeps F in `[m, M]` at every visited cell |
| LevelSpec.SeedsVisit | dahu/level_lines_distance_transform.py:29-31 | Visiting a non-seed cell keeps `F = m` and `D = 0` at every seed |
| LevelSpec.LinksVisit | dahu/level_lines_distance_transform.py:29-31 | A visit adds the relation of the new cell to its parent (clamped F, step, `D = key(parent) + step`) and keeps all the others |
| LevelSpec.BoundedVisit | dahu/level_lines_distance_transform.py:29-31 | A visit keeps every step at most 65535 and every D within its bound |
| LevelSpec.TreeVisit | dahu/level_lines_distance_transform.py:29-32 | A visit keeps all the level-lines relations |
| LevelSpec.TreeStart | dahu/level_lines_distance_transform.py:17-21 | The started seeds alone satisfy the level-lines relations |
| LevelSpec.ReplayStep | dahu/level_lines_distance_transform.py:29-31 | If the earlier visits satisfy the level-lines relations, so do the visits with one more added |
| LevelSpec.ReplayIsTree | dahu/level_lines_distance_transform.py:17-32 | Every replay of a visit forest satisfies the level-lines relations: values exactly on the visited cells, F in `[m, M]`, seeds at `D = 0`, every cell linked to its parent, D bounded |
| LevelSpec.PrioritisedSeed | dahu/level_lines_distance_transform.py:21 | A seed pushed with priority 0 carries its key |
| LevelSpec.PrioritisedVisit | dahu/level_lines_distance_transform.py:32 | A visited cell pushed with its key keeps every queue entry carrying its cell's key |
| LevelSpec.PrioritisedPop | dahu/level_lines_distance_transform.py:24-25 | Popping a pending entry keeps the remaining entries carrying their cells' keys, and the popped priority `d` is the key of the popped cell |
| LevelSpec.VisitFits | dahu/level_lines_distance_transform.py:28-31 | On admissible inputs, the D written at a newly visited cell is below UNSEEN, so the marker stays unambiguous |
| LevelSpec.ReplayThen | dahu/level_lines_distance_transform.py:29-31 | Replaying one more visit from a cell with values applies the visit step to the earlier replay |
| LevelSpec.ReachWrites | dahu/level_lines_distance_transform.py:29-31 | A visit step writes exactly the clamped F, the step and `D = key + step` at the new cell, and leaves the source cell unchanged |
| LevelSpec.VisitStep | dahu/level_lines_distance_transform.py:29-31 | With `d` the popped key, `d + diff` is below UNSEEN; the replay of the extended visits differs only at the new cell, where F is the clamp, the step is `diff` and D is `d + diff` |
| LevelSpec.BoundFits | dahu/level_lines_distance_transform.py:11-13 | On a grid whose D values fit, the bound on D is below UNSEEN, the largest `uint32` |
| LevelSpec.ChainVariation | dahu/level_lines_distance_transform.py:31-32 | On a chain where each D is the previous D plus the step, the last D is the total variation of F along the chain |
| LevelSpec.ChainLastLinks | dahu/level_lines_distance_transform.py:31-32 | On a chain where each D is the previous step plus its own, the last D is the variation of F over the chain's last two links only |
| LevelSpec.TreeChained | dahu/level_lines_distance_transform.py:29-32 | A seed path through a tree that satisfies the level-lines relations is a chain of steps and D values |
| LevelSpec.CumulativeIsVariation | dahu/level_lines_distance_transform.py:31-32 | If each cell is pushed with its D, D at every visited cell is the total variation of F along its propagation path from a seed |
| LevelSpec.AsWrittenIsLastLinks | dahu/level_lines_distance_transform.py:31-32 | As written (each cell pushed with `diff`), D at every visited cell is the variation of F over the last two links of its propagation path |
| LevelSpec.FlatLevels | dahu/level_lines_distance_transform.py:29-31 | Where `m = M = k` on every visited cell, F is `k` and D is 0 everywhere visited |
| LevelSpec.SameSignal | dahu/level_lines_distance_transform.py:29 | The same visits give the level-lines transform and the Dahu transform the same propagated F |
| LevelSpec.RowReplay | dahu/level_lines_distance_transform.py:29-32 | On the row `[0, 2, 4]` seeded at its first pixel, F on the five cells is 0, 0, 2, 2, 4, the steps are 0, 0, 2, 0, 2, and D at the last pixel is 2 as written and 4 when D is pushed |
| LevelSpec.AsWrittenForgetsLevelLines | dahu/level_lines_distance_transform.py:32 | The row crosses two level lines of height 2 to reach its last pixel; as written D there is 2, and pushing D gives 4 |
| LevelLines.WriteLevel | dahu/level_lines_distance_transform.py:29-31 | After the writes, F and D hold the given values updated at one cell, and D marks that cell as seen |
| LevelLines.StartSeed | dahu/level_lines_distance_transform.py:19-21 | Initialising one seed adds it to the visited cells, the grids and the queue with priority 0 |
| LevelLines.SeedLevels | dahu/level_lines_distance_transform.py:17-21 | Succeeds exactly when every seed is in the domain and a 2-face; otherwise reports the first bad seed; on success, the seeds are visited, written and queued with key 0 |
| LevelLines.WriteVisit | dahu/level_lines_distance_transform.py:29-31 | The writes of a visit make the grids hold the replay of the extended visits; `diff` is the new step and `d + diff` the new D |
| LevelLines.VisitLevel | dahu/level_lines_distance_transform.py:29-31 | Visiting a neighbour whose D is UNSEEN extends the visits; the grids hold their replay, and `diff` is the absolute change of F with D there `d + diff` |
| LevelLines.PushVisit | dahu/level_lines_distance_transform.py:29-32 | A visit followed by the push keeps the grids, the marks and every queue entry carrying its cell's key |
| LevelLines.TryVisitLevel | dahu/level_lines_distance_transform.py:27-32 | Handling one move of C4 keeps the state consistent and leaves that neighbour visited if it is in the domain |
| LevelLines.ExpandLevel | dahu/level_lines_distance_transform.py:26-32 | After the inner loop every in-domain neighbour of the popped cell is visited, and the state stays consistent |
| LevelLines.StepLevel | dahu/level_lines_distance_transform.py:23-32 | One pop-and-expand keeps the state consistent; either more cells are visited or fewer entries are pending |
| LevelLines.Finished | dahu/level_lines_distance_transform.py:7-34 | A closed visit forest whose replay the grids hold is a successful transform, with D UNSEEN exactly off the visited cells |
| LevelLines.Propagate | dahu/level_lines_distance_transform.py:7-34 | Fails exactly when some seed is invalid, reporting the first. Otherwise: the visits form a forest; F and D hold a replay satisfying the level-lines relations; every cell is visited when there is a seed; D is UNSEEN exactly at the unvisited cells |
| LevelLines.LevelLinesDistanceTransform | dahu/level_lines_distance_transform.py:7-34 | The transform as written: everything `Propagate` states, with each cell pushed with its step |
| LevelLines.CumulativeDistanceTransform | dahu/level_lines_distance_transform.py:31-32 | The corrected transform: everything `Propagate` states, with each cell pushed with its D, so D is the path's total variation |
| Border.FillInterior | dt/border.py:7 | The cells inside the ring become `img`, shifted by one row and one column; the ring is unchanged |
| Border.FillRow | dt/border.py:8-9 | One whole row becomes `v`; every other cell is unchanged |
| Border.FillColumn | dt/border.py:10-11 | One whole column becomes `v`; every other cell is unchanged |
| Border.AddBorder | dt/border.py:4-13 | The result is `(H+2) x (W+2)`, every ring cell is `v`, and cropping the ring gives back `img` |
| Border.CropInterior | dt/border.py:7 | A grid whose interior cells are those of `img` crops to `img` |
| Border.BorderValues | dt/border.py:17 | The concatenated border has `2H + 2W` values |
| Border.MedianBorderValue | dt/border.py:17-18 | The picked value is the cell `(H-1, H)` when `H < W`, and `(H-W, 0)` otherwise |
| Border.AddMedianBorder | dt/border.py:16-19 | A non-empty image is padded with a ring of its `MedianBorderValue`, with the shape and crop properties of `AddBorder` |
| Border.MedianBorderNotMedian | dt/border.py:17-18 | The value is not a median of the border: on `[[1, 2], [3, 4]]` it is 1, 6 of the 8 border values exceed it, and so `IsMedian` fails |
| Border.BorderMedian | dt/border.py:17-18 | The corrected value, the middle of the sorted border cells, is a border value with at most half of the border values above it and at most half below it |
| Border.AddBorderMedian | dt/border.py:16-19 | A non-empty image is padded with a ring of a median of its border values, with the shape and crop properties of `AddBorder` |

## Left out

- Queue.WorkQueue.Pop: assumes that `distance` is the absolute priority the popped entry was pushed with. `dahu/pqueue.py` is not part of this model, and the transforms only show `q.push(cell, diff)` and `d = q.distance`. If the queue stored priorities relative to its current level, `d` would already be a cumulative level and line 31 of `dahu/level_lines_distance_transform.py` would already be a path cost. `LevelLines.LevelLinesDistanceTransform`, `LevelSpec.AsWrittenIsLastLinks`, `LevelSpec.AsWrittenForgetsLevelLines` and the first finding below rest on this assumption.
- LevelLines.CumulativeDistanceTransform: pushes `D[n]`, which can exceed the 16-bit key range a bounded bucket queue is built for. Priorities here are unbounded `nat`s, so the model does not show whether such a queue accepts those keys.
- The hierarchical queue itself (`dahu/pqueue.py`) is not part of this model. Its bucket layout, min-priority order and FIFO ties are left out. `Queue.WorkQueue.Pop` returns any pending entry, so no statement depends on pop order.
- LevelLines.LevelLinesDistanceTransform: does not prove that D is the least cost over all paths (shortest-path optimality). That claim needs the queue's min-priority order, which is not modelled. If `distance` is the absolute priority of the popped entry (see `Queue.WorkQueue.Pop` above), the code as written does not achieve it either, as the first finding below shows.
- Dahu.DahuDistanceTransform: does not prove that the result is the least spread over all paths (a true minimum barrier). It states the spread along the path the propagation took, for the same reason.
- LevelLines.LevelLinesDistanceTransform: requires every sample of `m` and `M` to lie in `[0, 65535]`, instead of modelling `uint32` wrap-around of D. Under that bound D stays at most `2 * 65535`, below UNSEEN.
- LevelLines.CumulativeDistanceTransform: requires 65535 times the number of cells to be below UNSEEN, for the same reason.
- Input images are values (`seq<seq<int>>`, rows of equal width). NumPy dtypes and `empty_like` are not modelled. The work grids are fresh `array2<int>`, and their cells are meaningful only where a replay gives them values.
- Dahu.DahuDistanceTransform: says nothing about unvisited cells (with no seed, every cell is unvisited). In the source those cells hold whatever `np.empty_like` left there.
- A failed seed check is an `Outcome.Failure` naming the first bad seed, not a Python `AssertionError`. The grids written before the failure are not returned. Python's `-O` switch, which disables `assert`, is not modelled.
- The default argument `seeds=[(0, 0)]` is not modelled: seeds are always passed explicitly.
- The Dahu transform reads `d = q.distance` and never uses it; the model does the same.
- `LevelLines.VisitLevel` computes `diff` from the clamped value `f` it has just written, where the source reads `F[nl, nc]` back after the write; the two are the same number. `Dahu.VisitDahu` reads `F[nl, nc]` back after the write, as the source does.
- The immersion builder, the GUI (`gui/*.py`) and `dahu/__init__.py` are not part of this model.
- Border.AddBorder: does not model the cast of `v` to the image's dtype.
- Border.AddBorder: an image with no rows has width 0 here, whereas NumPy keeps a `(0, W)` shape.
- Border.AddMedianBorder: requires a non-empty image. On an empty one the source raises `IndexError` when it indexes the first row or column.

## Findings

| source | as written | input that shows it | evidently intended | confidence | as-written member | corrected member |
|---|---|---|---|---|---|---|
| dahu/level_lines_distance_transform.py:32 | Each reached cell is pushed with `diff`, so the popped `d` is the cell's own step. `D[n] = d + diff` (line 31) then adds two consecutive steps, not a path cost. | A 1x5 interval row `m = [0, 0, 2, 2, 4]`, `M = [0, 2, 2, 4, 4]` (the image row `[0, 2, 4]`), seeded at `(0, 0)`. The last pixel lies beyond two level lines of height 2, yet `D(0, 4)` is 2. | Push `D[n]`, so that `D[n] = D[parent] + abs(F[parent] - F[n])` at every reached cell: an additive path cost, the total variation of F along the propagation path (4 on the row). | medium, not executed; rests on `q.distance` being the absolute priority of the popped entry (see `Queue.WorkQueue.Pop` under "## Left out") | LevelSpec.AsWrittenForgetsLevelLines | LevelLines.CumulativeDistanceTransform |
| dt/border.py:18 | The ring value is the element at index `size // 2` of the concatenated border cells, which are not sorted. | The image `[[1, 2], [3, 4]]`: its border is `1, 2, 3, 4, 1, 3, 2, 4`, the picked value is 1, and 6 of the 8 border values exceed it. | The median of the border cells, as the function's name says: the middle element once they are sorted. | high, not executed | Border.MedianBorderNotMedian | Border.BorderMedian |
