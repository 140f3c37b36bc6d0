# Greedy IoU tracking and line-crossing counting, modelled in Dafny

This project models the per-frame core of a traffic video analytics tool.

- **Tracker** (`tracking.dfy`, module `Tracking`). Each frame's detections go to a greedy intersection-over-union (IoU) tracker. It keeps a table of live tracks and gives every object a persistent id.
- **Counter** (`line_counting.dfy`, module `LineCounting`). The tracks then go to a line counter. It detects when a track's centroid crosses a counting line, labels the crossing "IN" or "OUT" from its vertical motion, and rejects repeats within a cooldown.

Both components are modelled the same way:

- Pure functions specify the update, stage by stage. The tracker's are `Aged`, `Pick`/`UsedAfter`/`Matched`, `NewTracks` and `Survivors`, combined in `Step`. The counter's are `Observe` for one track and `ObserveAll` for one frame.
- A class performs the same update in place: `IoUTracker` over a `seq` of track records, `LineCounter` over `map` fields. Each method's postcondition says that the new state is the specification function applied to the old state.
- Lemmas about the specification functions state what the source promises.

Coordinates, IoU values, centroids and side values are exact `real`s.

## Model

| member | source | states |
|---|---|---|
| Tracking.Area | src/tracker.py:12-13 | a box's clamped area is non-negative, and positive exactly when both sides are positive |
| Tracking.Intersection | src/tracker.py:7-9 | the overlap area is non-negative and never more than either box's area |
| Tracking.IoU | src/tracker.py:5-15 | IoU is 0 when the overlap area is 0 (disjoint or zero-area boxes), otherwise a ratio in (0, 1] |
| Tracking.IoUSymmetric | src/tracker.py:5-15 | IoU(a, b) == IoU(b, a) |
| Tracking.IoUSelf | src/tracker.py:5-15 | a positive-area box has IoU exactly 1 with itself |
| Tracking.IoUExample | src/tracker.py:5-15 | IoU([0,0,10,10], [5,5,15,15]) == 25/175 |
| Tracking.Candidate | src/tracker.py:51-55 | a detection may be matched to a track only if it is not used yet and has the track's class |
| Tracking.BestIn | src/tracker.py:48-59 | the specification of the inner scan over the first n detections: the index stays in [-1, n); its meaning is stated by BestInIsGreedyBest |
| Tracking.Pick | src/tracker.py:47-61 | the detection a track is matched to, or -1, always a valid index or -1; its meaning is stated by PickIsThresholdedBest |
| Tracking.UsedAfter | src/tracker.py:44-67 | the used bitmap after the first i tracks of the greedy pass, one flag per detection; see UsedMonotone and UsedIffChosen |
| Tracking.Choice | src/tracker.py:47-61 | the detection chosen for the i-th track, given the used marks left by the tracks before it, or -1 |
| Tracking.Rematch | src/tracker.py:62-66 | a matched track takes the detection's bbox, cls and conf, with age 0 and hits + 1, and keeps its id |
| Tracking.MatchedTrack | src/tracker.py:47-66 | a track after the greedy pass, rewritten from its chosen detection or left as it was; see MatchedTrackFields |
| Tracking.Matched | src/tracker.py:47-67 | the whole track list after the greedy pass, same length and order as before |
| Tracking.BestDetection | src/tracker.py:48-59 | the inner scan returns the result of the declarative best-candidate search BestIn |
| Tracking.BestInIsGreedyBest | src/tracker.py:48-59 | the scan yields an unused, same-class detection with positive IoU that is largest among candidates, with the lowest index winning ties; it yields -1 (with IoU 0) exactly when every candidate has IoU 0 |
| Tracking.PickIsThresholdedBest | src/tracker.py:47-61 | a track is matched only to that best candidate, only when its IoU is > 0 and >= the threshold (so IoU 0 never matches even at threshold 0); it stays unmatched exactly when no candidate has a positive IoU at or above the threshold |
| Tracking.UsedMonotone | src/tracker.py:44-67 | a detection marked used stays used for the rest of the pass |
| Tracking.UsedIffChosen | src/tracker.py:44-67 | after the first i tracks, a detection is marked used iff one of those tracks was matched to it |
| Tracking.ChoicesDistinct | src/tracker.py:47-67 | no detection is matched to two tracks |
| Tracking.UsedCountIsMatchCount | src/tracker.py:61-67 | the number of used marks equals the number of matched tracks |
| Tracking.Aged | src/tracker.py:41-42 | every track one frame older, list length unchanged; see MatchedTrackFields for the per-track effect |
| Tracking.Spawn | src/tracker.py:73-80 | the new track for a detection: its bbox, cls and conf, the given id, age 0 and hits 1 |
| Tracking.NewTracks | src/tracker.py:70-81 | new tracks get consecutive ids from the old next id, with age 0 and hits 1 |
| Tracking.NewTracksCount | src/tracker.py:70-81 | exactly one new track per unused detection |
| Tracking.Unused | src/tracker.py:70-72 | the unused detection indices below n, each exactly once, in increasing order |
| Tracking.NewTracksFromUnused | src/tracker.py:70-81 | new track k is built from the k-th unused detection (its bbox, cls and conf) with id first id + k, age 0 and hits 1; every unused detection gets exactly one track, in detection order |
| Tracking.Survivors | src/tracker.py:84-84 | a track is kept iff it was present and its age is <= max_age |
| Tracking.SurvivorsConcat | src/tracker.py:84-84 | removal works element by element, so survivors keep their relative order |
| Tracking.SurvivorsKeepAll | src/tracker.py:84-84 | when no track is too old, the list is unchanged |
| Tracking.SurvivorsDistinct | src/tracker.py:84-84 | removal keeps ids pairwise distinct |
| Tracking.MatchedTrackFields | src/tracker.py:41-66 | a matched track takes bbox, cls and conf from its detection, with age 0, hits + 1 and the same id; an unmatched track only ages by 1 |
| Tracking.MatchedKeepsBounds | src/tracker.py:41-67 | after aging and matching, the list keeps its length and every track keeps its id; ids stay distinct and below the next id, hits stay >= 1 and ages stay >= 0 |
| Tracking.AppendBornBounds | src/tracker.py:70-81 | appending tracks with consecutive ids from the next id keeps all ids distinct and below the new next id |
| Tracking.Step | src/tracker.py:39-85 | one update as the composition of aging, greedy matching, track creation and removal; its properties are stated by the Step lemmas below |
| Tracking.StepKeepsTableOk | src/tracker.py:36-85 | an update keeps the invariant: ids positive, pairwise distinct and below the next id; 0 <= age <= max_age; hits >= 1. The next id never decreases, and every track whose id is at or above the old next id is new (age 0, hits 1), and every track whose id is below it is an old track carried through the greedy pass, so ids are never reused |
| Tracking.StepNewTrackCount | src/tracker.py:44-81 | the next id grows by the number of detections minus the number of matches |
| Tracking.StepNoDetections | src/tracker.py:41-84 | with no detections, an update only ages every track and drops those over max_age; the next id is unchanged |
| Tracking.StepRepeatedBox | src/tracker.py:47-81 | the same positive-area box fed twice to an empty tracker gives one track with the same id, and hits == 2 after the second frame |
| Tracking.IoUTracker.constructor | src/tracker.py:33-37 | the tracker starts with no tracks, next id 1 and the given threshold and max_age (defaults 0.3 and 30) |
| Tracking.IoUTracker.Update | src/tracker.py:39-85 | the new table and next id are Step of the old ones; it returns the live track list; the invariant holds and every returned track has age <= max_age |
| Tracking.IoUTracker.AgeTracks | src/tracker.py:41-42 | every live track's age is incremented in place |
| Tracking.IoUTracker.MatchTracks | src/tracker.py:44-67 | the greedy pass leaves the used bitmap and the tracks as the specification functions UsedAfter and Matched give them |
| Tracking.IoUTracker.CreateTracks | src/tracker.py:70-81 | a new track is appended for every unused detection, and the next id is bumped once per new track |
| LineCounting.SideOfLine | src/line_counter.py:8-13 | the cross product of A->B and A->P whose sign gives P's side of line AB; its properties are stated by the three Side lemmas |
| LineCounting.SideOnLine | src/line_counter.py:8-13 | every point of line AB has side 0 |
| LineCounting.SideDegenerateLine | src/line_counter.py:8-13 | when A == B, the side is 0 for every point |
| LineCounting.SideOfHorizontalLine | src/line_counter.py:8-13 | for a horizontal line drawn left to right, the side is positive iff the point is below it (y larger), negative iff above |
| LineCounting.DefaultConfigSides | src/line_counter.py:15-20 | the default line runs from (100, 380) to (860, 380): a centroid below y = 380 has a positive side and one above a negative side; min_hits is 2 and cooldown_frames is 30 |
| LineCounting.LineCounter.constructor | src/line_counter.py:23-39 | all per-id maps and label counts start empty and the total starts at 0 |
| LineCounting.LineCounter.Update | src/line_counter.py:36-91 | the new state is ObserveAll of the old state over the frame's tracks; it returns the running count_by_label map; the total never decreases; the total and the label sum move together |
| LineCounting.LineCounter.ObserveTrack | src/line_counter.py:41-89 | one turn of the per-frame loop leaves the counter in the state Observe gives |
| LineCounting.LineCounter.CountForLabel | src/line_counter.py:94-95 | adds inc to one label, creating it at 0; count_total and the per-id maps are untouched |
| LineCounting.Centroid | src/line_counter.py:46-48 | the midpoint of a track's box |
| LineCounting.TrackSide | src/line_counter.py:56 | the side of the counting line on which a track's centroid lies |
| LineCounting.Eligible | src/line_counter.py:42 | a track is counted only when it has at least min_hits hits |
| LineCounting.Crossed | src/line_counter.py:69 | a crossing is a strict sign flip of the side between two observations |
| LineCounting.LastFrame | src/line_counter.py:83 | the frame of the last counted crossing of an id in a direction, -10^9 when there is none |
| LineCounting.AddToLabel | src/line_counter.py:89 | adds an increment to one label's count, starting from 0 when the label is absent |
| LineCounting.Direction | src/line_counter.py:77-80 | "IN" when the centroid's y increased since the last observation, otherwise "OUT" |
| LineCounting.Observe | src/line_counter.py:41-89 | the effect of one turn of the per-frame loop on the counter state; its properties are stated by the Observe lemmas below |
| LineCounting.ObserveAll | src/line_counter.py:41-89 | one frame: the tracks observed one after another in list order |
| LineCounting.ObserveIneligible | src/line_counter.py:42-43 | a track with hits < min_hits changes nothing |
| LineCounting.ObserveAllIneligible | src/line_counter.py:41-43 | a frame made only of tracks with too few hits changes no map and no counter |
| LineCounting.EligibleOnly | src/line_counter.py:41-43 | the tracks with at least min_hits hits, in list order: a track is kept iff it was present and eligible |
| LineCounting.ObserveAllSkipsIneligible | src/line_counter.py:41-43 | dropping the tracks with too few hits from a frame leaves the resulting state unchanged |
| LineCounting.ObserveFirstSighting | src/line_counter.py:58-60 | on an id's first observation nothing is counted |
| LineCounting.ObserveAdvances | src/line_counter.py:52-63 | for an eligible track, last side and last centroid become this frame's values whether or not a count happens; other ids are untouched |
| LineCounting.ObserveAllAdvances | src/line_counter.py:41-63 | after a frame, the last eligible track with a given id has left its side and centroid under that id |
| LineCounting.OppositeSigns | src/line_counter.py:66-71 | a strict sign flip holds iff the product of the two sides is negative, which requires both to be nonzero |
| LineCounting.ObserveCountsIff | src/line_counter.py:66-89 | a crossing is counted iff all of these hold: the track is eligible, was seen before with a strictly opposite nonzero side, has a known previous centroid, and frame - last_count_frame[(tid, dir)] >= cooldown (a missing entry counts as -10^9; dir is "IN" iff y increased, else "OUT"). A count stores the frame and adds exactly 1 to the total and to that label; otherwise no counter and no cooldown entry changes |
| LineCounting.ObserveCooldownSuppresses | src/line_counter.py:83-85 | a crossing within the cooldown of the same id and direction is not counted |
| LineCounting.ObserveDegenerateLineNeverCounts | src/line_counter.py:56-67 | with coincident line endpoints a track never changes count_total, count_by_label or last_count_frame |
| LineCounting.ObserveAllDegenerateLineNeverCounts | src/line_counter.py:41-89 | with coincident line endpoints a whole frame leaves every counter and cooldown entry unchanged |
| LineCounting.ObserveKeepsKeysInStep | src/line_counter.py:52-63 | the last-side and last-centroid maps keep the same key set |
| LineCounting.ObserveAllKeepsKeysInStep | src/line_counter.py:38-75 | over a frame the two maps keep equal key sets, so the "no previous centroid" branch is never taken |
| LineCounting.ObserveAllMonotone | src/line_counter.py:87-89 | count_total and every count_by_label value never decrease, and no label disappears |
| LineCounting.AddToLabelSum | src/line_counter.py:94-95 | adding inc to one label raises the label sum by inc |
| LineCounting.ObserveKeepsBalance | src/line_counter.py:87-89 | observing a track changes count_total and the label sum by the same amount |
| LineCounting.ObserveAllKeepsBalance | src/line_counter.py:33-91 | a frame keeps count_total == sum of count_by_label when it held before |
| LineCounting.CrossingExample | src/line_counter.py:36-91 | on the default line at y = 380, a track at y = 370 (frame 10) then y = 390 (frame 11) is counted once as "IN"; back at y = 370 in frame 15 it is counted as "OUT", and the total is 2 |

### Behaviour of the code worth noting

- `update` returns the running `count_by_label` map, not the counts of this call (src/line_counter.py:91). `LineCounter.Update` returns a value equal to that map.
- The "no previous centroid" branch (src/line_counter.py:74-75) cannot be taken: the centroid is stored before any other test (src/line_counter.py:52-53). `ObserveAllKeepsKeysInStep` proves this. The branch is still modelled.
- `last_count_frame` is annotated as keyed by track id (src/line_counter.py:31), but the code keys it by (track id, direction) pairs (src/line_counter.py:83, 87). The model uses `map<(int, string), int>`.
- Coincident line endpoints are not rejected at construction (src/line_counter.py:23-26). `SideDegenerateLine` shows that every point then has side 0, and `ObserveDegenerateLineNeverCounts` and `ObserveAllDegenerateLineNeverCounts` show that such a line never counts anything.

## Left out

- scripts/run_video.py, src/pipeline.py, src/overlay.py and src/metrics.py are not part of this model. They hold video I/O, detector inference, drawing, JSON output and wall-clock timing. Their inputs to the core are each frame's detections (src/pipeline.py:48-57) and the frame index (scripts/run_video.py:65, 74, 100). Both are parameters here.
- Floating-point rounding (float32 boxes, centroids and cross products, the float64 IoU) is not modelled: all of these are exact reals.
- Detections are a sequence of records (box, class, confidence). The source takes three parallel arrays, so mismatched array lengths cannot be expressed here. The source does not check them either.
- Tracks are values inside the tracker's sequence. The aliasing of mutable track objects shared with the caller and the renderer is not modelled. Neither is the fact that `update` returns that very list object: the model returns an equal sequence.
- `update` of the counter returns the very `count_by_label` dict object, so a caller that keeps it sees later updates and `count_for_label` calls. The model returns a map value, and this aliasing is not modelled.
- `LineCounter` reads the line endpoints from its configuration. The source's float32 copies `self.a` and `self.b` hold the same values, so they are not separate fields here.
- `last_centroid` is created empty in the constructor, not lazily on the first `update`. Its first use comes after the lazy creation, so the two behave the same.
- The `getattr` default of 1 for a track without `hits` is not modelled, because every track record has `hits`.
- Eviction of per-id history for tracks that have disappeared is not modelled; the source does not implement it either.
- `count_for_label` raises the label sum without touching `count_total`. So `count_total == sum(count_by_label)` is stated as "preserved by `update`", not as an object invariant.
