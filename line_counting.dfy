/**
  The line-crossing counter of src/line_counter.py.

  The counter keeps, per track id, the side of the counting line and the
  centroid at its last observation, and per (track id, direction) the frame
  of the last counted crossing. Observe specifies what one track of a frame
  does to that state, ObserveAll a whole frame; the class LineCounter
  performs the same steps in place. The lemmas state the gating, the state
  advance, the cooldown and the counter invariants.
 */
module LineCounting {
  import opened Tracking

  datatype Option<T> = None | Some(value: T)

  /** A point in image coordinates (y grows downwards). */
  datatype Point = Point(x: real, y: real)

  /** Cross product of A->B and A->P: the sign says on which side of line AB point p lies. */
  function SideOfLine(p: Point, a: Point, b: Point): real
  {
    (b.x - a.x) * (p.y - a.y) - (b.y - a.y) * (p.x - a.x)
  }

  /** Line endpoints, the hits a track needs before it is counted, and the cooldown in frames. */
  datatype LineCounterConfig = LineCounterConfig(a: Point, b: Point, minHits: int, cooldownFrames: int)

  const DefaultConfig := LineCounterConfig(Point(100.0, 380.0), Point(860.0, 380.0), 2, 30)

  const In: string := "IN"
  const Out: string := "OUT"

  /** The frame assumed for a (track id, direction) pair that was never counted. */
  const NeverCounted: int := -1_000_000_000

  /** Midpoint of a box. */
  function Centroid(b: Box): Point
  {
    Point(0.5 * (b.x1 + b.x2), 0.5 * (b.y1 + b.y2))
  }

  /** The per-track history and the aggregate counters. */
  datatype Counts = Counts(
    lastSide: map<int, real>,
    lastCentroid: map<int, Point>,
    lastCountFrame: map<(int, string), int>,
    countTotal: int,
    countByLabel: map<string, int>)

  const Empty := Counts(map[], map[], map[], 0, map[])

  /** The value of a label, 0 when absent. */
  function LabelCount(m: map<string, int>, name: string): int
  {
    if name in m then m[name] else 0
  }

  /** Adds inc to one label's count, creating it at 0 when absent. */
  function AddToLabel(m: map<string, int>, name: string, inc: int): map<string, int>
  {
    m[name := LabelCount(m, name) + inc]
  }

  /** Strict sign flip between two side values. */
  predicate Crossed(prevSide: real, side: real)
  {
    (prevSide > 0.0 && side < 0.0) || (prevSide < 0.0 && side > 0.0)
  }

  /** "IN" when the centroid moved down (y increased), otherwise "OUT". */
  function Direction(prev: Point, p: Point): string
  {
    if p.y - prev.y > 0.0 then In else Out
  }

  /** Frame of the last counted crossing of tid in direction dir, NeverCounted when none. */
  function LastFrame(s: Counts, tid: int, dir: string): int
  {
    if (tid, dir) in s.lastCountFrame then s.lastCountFrame[(tid, dir)] else NeverCounted
  }

  predicate Eligible(cfg: LineCounterConfig, t: Track)
  {
    t.hits >= cfg.minHits
  }

  /** The side of the line on which the centroid of track t lies. */
  function TrackSide(cfg: LineCounterConfig, t: Track): real
  {
    SideOfLine(Centroid(t.bbox), cfg.a, cfg.b)
  }

  /** What observing track t at frame frameIdx does to the counter state. */
  function Observe(cfg: LineCounterConfig, s: Counts, frameIdx: int, t: Track): Counts
  {
    if !Eligible(cfg, t) then s
    else
      var tid := t.tid;
      var p := Centroid(t.bbox);
      var prevP := if tid in s.lastCentroid then Some(s.lastCentroid[tid]) else None;
      var side := SideOfLine(p, cfg.a, cfg.b);
      var moved := s.(lastCentroid := s.lastCentroid[tid := p], lastSide := s.lastSide[tid := side]);
      if tid !in s.lastSide then moved
      else
        var prevSide := s.lastSide[tid];
        if prevSide == 0.0 || side == 0.0 then moved
        else if !Crossed(prevSide, side) then moved
        else if prevP.None? then moved
        else
          var dir := Direction(prevP.value, p);
          if frameIdx - LastFrame(s, tid, dir) < cfg.cooldownFrames then moved
          else moved.(
            lastCountFrame := s.lastCountFrame[(tid, dir) := frameIdx],
            countTotal := s.countTotal + 1,
            countByLabel := AddToLabel(s.countByLabel, dir, 1))
  }

  /** The state after observing the tracks of one frame in list order. */
  function ObserveAll(cfg: LineCounterConfig, s: Counts, frameIdx: int, ts: seq<Track>): Counts
    decreases |ts|
  {
    if ts == [] then s
    else Observe(cfg, ObserveAll(cfg, s, frameIdx, ts[..|ts| - 1]), frameIdx, ts[|ts| - 1])
  }

  /** Sum of the values of a label map. */
  ghost function SumValues(m: map<string, int>): int
    decreases |m|
  {
    if m == map[] then 0
    else
      var k :| k in m;
      m[k] + SumValues(m - {k})
  }

  // ---------------------------------------------------------------------------
  // The counter object
  // ---------------------------------------------------------------------------

  class LineCounter {
    const cfg: LineCounterConfig
    var lastSide: map<int, real>
    var lastCentroid: map<int, Point>
    var lastCountFrame: map<(int, string), int>
    var countTotal: int
    var countByLabel: map<string, int>

    ghost function State(): Counts
      reads this
    {
      Counts(lastSide, lastCentroid, lastCountFrame, countTotal, countByLabel)
    }

    /** The per-id side and centroid maps always have the same ids. */
    ghost predicate Valid()
      reads this
    {
      lastSide.Keys == lastCentroid.Keys
    }

    constructor (cfg: LineCounterConfig)
      ensures this.cfg == cfg && State() == Empty
      ensures Valid()
    {
      this.cfg := cfg;
      lastSide := map[];
      lastCentroid := map[];
      lastCountFrame := map[];
      countTotal := 0;
      countByLabel := map[];
    }

    /** Observes the tracks of frame frameIdx and returns the running per-label counts. */
    method Update(frameIdx: int, tracks: seq<Track>) returns (r: map<string, int>)
      requires Valid()
      modifies this
      ensures State() == ObserveAll(cfg, old(State()), frameIdx, tracks)
      ensures r == countByLabel
      ensures Valid() && countTotal >= old(countTotal)
      ensures SumValues(countByLabel) - countTotal == old(SumValues(countByLabel) - countTotal)
    {
      for i := 0 to |tracks|
        invariant State() == ObserveAll(cfg, old(State()), frameIdx, tracks[..i])
      {
        assert tracks[..i + 1][..i] == tracks[..i];
        ObserveTrack(frameIdx, tracks[i]);
      }
      assert tracks[..|tracks|] == tracks;
      ObserveAllMonotone(cfg, old(State()), frameIdx, tracks);
      ObserveAllKeepsKeysInStep(cfg, old(State()), frameIdx, tracks);
      ObserveAllKeepsBalance(cfg, old(State()), frameIdx, tracks);
      r := countByLabel;
    }

    /** The body of the per-frame loop for one track t; each return ends that track's turn. */
    method ObserveTrack(frameIdx: int, t: Track)
      modifies this
      ensures State() == Observe(cfg, old(State()), frameIdx, t)
    {
      if t.hits < cfg.minHits {
        return;
      }
      var tid := t.tid;
      var p := Centroid(t.bbox);
      var prevP := if tid in lastCentroid then Some(lastCentroid[tid]) else None;
      lastCentroid := lastCentroid[tid := p];
      var side := SideOfLine(p, cfg.a, cfg.b);
      if tid !in lastSide {
        lastSide := lastSide[tid := side];
        return;
      }
      var prevSide := lastSide[tid];
      lastSide := lastSide[tid := side];
      if prevSide == 0.0 || side == 0.0 {
        return;
      }
      var crossed := (prevSide > 0.0 && side < 0.0) || (prevSide < 0.0 && side > 0.0);
      if !crossed {
        return;
      }
      if prevP.None? {
        return;
      }
      var dy := p.y - prevP.value.y;
      var direction := if dy > 0.0 then In else Out;
      var lastF := if (tid, direction) in lastCountFrame then lastCountFrame[(tid, direction)] else NeverCounted;
      if frameIdx - lastF < cfg.cooldownFrames {
        return;
      }
      lastCountFrame := lastCountFrame[(tid, direction) := frameIdx];
      countTotal := countTotal + 1;
      countByLabel := countByLabel[direction := LabelCount(countByLabel, direction) + 1];
    }

    /** Adds inc to the count of one label; the total is left alone. */
    method CountForLabel(name: string, inc: int := 1)
      modifies this
      ensures countByLabel == AddToLabel(old(countByLabel), name, inc)
      ensures lastSide == old(lastSide) && lastCentroid == old(lastCentroid)
      ensures lastCountFrame == old(lastCountFrame) && countTotal == old(countTotal)
      ensures SumValues(countByLabel) == old(SumValues(countByLabel)) + inc
    {
      AddToLabelSum(countByLabel, name, inc);
      countByLabel := countByLabel[name := LabelCount(countByLabel, name) + inc];
    }
  }

  // ---------------------------------------------------------------------------
  // Properties of the side test
  // ---------------------------------------------------------------------------

  /** Every point of line AB has side 0. */
  lemma SideOnLine(a: Point, b: Point, u: real)
    ensures SideOfLine(Point(a.x + u * (b.x - a.x), a.y + u * (b.y - a.y)), a, b) == 0.0
  {
    var dx, dy := b.x - a.x, b.y - a.y;
    assert dx * (u * dy) == dy * (u * dx);
  }

  /** With coincident endpoints every point has side 0 (see ObserveDegenerateLineNeverCounts). */
  lemma SideDegenerateLine(p: Point, a: Point)
    ensures SideOfLine(p, a, a) == 0.0
  {
  }

  /** For a horizontal line drawn left to right, the side is the sign of p.y - a.y. */
  lemma SideOfHorizontalLine(p: Point, a: Point, b: Point)
    requires a.y == b.y && a.x < b.x
    ensures SideOfLine(p, a, b) > 0.0 <==> p.y > a.y
    ensures SideOfLine(p, a, b) < 0.0 <==> p.y < a.y
  {
    assert SideOfLine(p, a, b) == (b.x - a.x) * (p.y - a.y);
  }

  /**
    The default line is horizontal at y = 380 and drawn left to right, so a
    centroid below it (larger y) has a positive side and one above it a
    negative side; tracks need 2 hits and a crossing has a 30-frame cooldown.
   */
  lemma DefaultConfigSides(p: Point)
    ensures SideOfLine(p, DefaultConfig.a, DefaultConfig.b) > 0.0 <==> p.y > 380.0
    ensures SideOfLine(p, DefaultConfig.a, DefaultConfig.b) < 0.0 <==> p.y < 380.0
    ensures DefaultConfig.minHits == 2 && DefaultConfig.cooldownFrames == 30
  {
    SideOfHorizontalLine(p, DefaultConfig.a, DefaultConfig.b);
  }

  // ---------------------------------------------------------------------------
  // Properties of observing one track
  // ---------------------------------------------------------------------------

  /** A track with too few hits changes nothing. */
  lemma ObserveIneligible(cfg: LineCounterConfig, s: Counts, frameIdx: int, t: Track)
    requires !Eligible(cfg, t)
    ensures Observe(cfg, s, frameIdx, t) == s
  {
  }

  /**
    An eligible track always records this frame's side and centroid under its
    id, whatever happens to the counters, and no other id's history changes.
   */
  lemma ObserveAdvances(cfg: LineCounterConfig, s: Counts, frameIdx: int, t: Track)
    requires Eligible(cfg, t)
    ensures Observe(cfg, s, frameIdx, t).lastSide == s.lastSide[t.tid := TrackSide(cfg, t)]
    ensures Observe(cfg, s, frameIdx, t).lastCentroid == s.lastCentroid[t.tid := Centroid(t.bbox)]
  {
  }

  /** The first observation of an id only records it; nothing is counted. */
  lemma ObserveFirstSighting(cfg: LineCounterConfig, s: Counts, frameIdx: int, t: Track)
    requires t.tid !in s.lastSide
    ensures var s' := Observe(cfg, s, frameIdx, t);
      s'.countTotal == s.countTotal && s'.countByLabel == s.countByLabel && s'.lastCountFrame == s.lastCountFrame
  {
  }

  /**
    A crossing is counted exactly when the track is eligible, was seen before on
    the strictly opposite nonzero side, its previous centroid is known, and at
    least cooldownFrames have passed since the last count of that id and
    direction; a count records the frame and adds one to the total and to the
    direction's label, and otherwise no counter changes.
   */
  lemma ObserveCountsIff(cfg: LineCounterConfig, s: Counts, frameIdx: int, t: Track)
    ensures var s' := Observe(cfg, s, frameIdx, t);
      var counted :=
        && Eligible(cfg, t)
        && t.tid in s.lastSide && t.tid in s.lastCentroid
        && s.lastSide[t.tid] * TrackSide(cfg, t) < 0.0
        && frameIdx - LastFrame(s, t.tid, Direction(s.lastCentroid[t.tid], Centroid(t.bbox))) >= cfg.cooldownFrames;
      && (counted ==>
            var dir := Direction(s.lastCentroid[t.tid], Centroid(t.bbox));
            && s'.countTotal == s.countTotal + 1
            && s'.countByLabel == AddToLabel(s.countByLabel, dir, 1)
            && s'.lastCountFrame == s.lastCountFrame[(t.tid, dir) := frameIdx])
      && (!counted ==>
            s'.countTotal == s.countTotal && s'.countByLabel == s.countByLabel && s'.lastCountFrame == s.lastCountFrame)
  {
    if Eligible(cfg, t) && t.tid in s.lastSide {
      OppositeSigns(s.lastSide[t.tid], TrackSide(cfg, t));
    }
  }

  /** A strict sign flip is the same as a negative product of the two sides. */
  lemma OppositeSigns(prevSide: real, side: real)
    ensures Crossed(prevSide, side) <==> prevSide * side < 0.0
    ensures Crossed(prevSide, side) ==> prevSide != 0.0 && side != 0.0
  {
    if prevSide > 0.0 && side > 0.0 {
      assert prevSide * side > 0.0;
    } else if prevSide < 0.0 && side < 0.0 {
      assert prevSide * side > 0.0;
    } else if prevSide > 0.0 && side < 0.0 {
      assert prevSide * side < 0.0;
    } else if prevSide < 0.0 && side > 0.0 {
      assert prevSide * side < 0.0;
    }
  }

  /** Within the cooldown a second crossing of the same id in the same direction is not counted. */
  lemma ObserveCooldownSuppresses(cfg: LineCounterConfig, s: Counts, frameIdx: int, t: Track)
    requires t.tid in s.lastCentroid
    requires frameIdx - LastFrame(s, t.tid, Direction(s.lastCentroid[t.tid], Centroid(t.bbox))) < cfg.cooldownFrames
    ensures Observe(cfg, s, frameIdx, t).countTotal == s.countTotal
    ensures Observe(cfg, s, frameIdx, t).countByLabel == s.countByLabel
  {
  }

  /** The per-id maps always share their keys, so the "no previous centroid" branch is never taken. */
  lemma ObserveKeepsKeysInStep(cfg: LineCounterConfig, s: Counts, frameIdx: int, t: Track)
    requires s.lastSide.Keys == s.lastCentroid.Keys
    ensures Observe(cfg, s, frameIdx, t).lastSide.Keys == Observe(cfg, s, frameIdx, t).lastCentroid.Keys
  {
  }

  // ---------------------------------------------------------------------------
  // Properties of a whole frame
  // ---------------------------------------------------------------------------

  /** Counters never decrease, and no label disappears. */
  lemma {:induction false} ObserveAllMonotone(cfg: LineCounterConfig, s: Counts, frameIdx: int, ts: seq<Track>)
    ensures var s' := ObserveAll(cfg, s, frameIdx, ts);
      && s'.countTotal >= s.countTotal
      && forall l :: l in s.countByLabel ==> l in s'.countByLabel && s'.countByLabel[l] >= s.countByLabel[l]
    decreases |ts|
  {
    if ts != [] {
      ObserveAllMonotone(cfg, s, frameIdx, ts[..|ts| - 1]);
    }
  }

  /** A frame in which every track has fewer than minHits hits changes nothing. */
  lemma {:induction false} ObserveAllIneligible(cfg: LineCounterConfig, s: Counts, frameIdx: int, ts: seq<Track>)
    requires forall t :: t in ts ==> !Eligible(cfg, t)
    ensures ObserveAll(cfg, s, frameIdx, ts) == s
    decreases |ts|
  {
    if ts != [] {
      assert forall t :: t in ts[..|ts| - 1] ==> t in ts;
      ObserveAllIneligible(cfg, s, frameIdx, ts[..|ts| - 1]);
    }
  }

  /** The eligible tracks of a frame, in list order. */
  function EligibleOnly(cfg: LineCounterConfig, ts: seq<Track>): (r: seq<Track>)
    ensures |r| <= |ts|
    ensures forall t :: t in r <==> t in ts && Eligible(cfg, t)
    decreases |ts|
  {
    if ts == [] then []
    else
      var prev := EligibleOnly(cfg, ts[..|ts| - 1]);
      var last := ts[|ts| - 1];
      assert ts == ts[..|ts| - 1] + [last];
      if Eligible(cfg, last) then prev + [last] else prev
  }

  /** Tracks with fewer than minHits hits can be left out of a frame without changing the result. */
  lemma {:induction false} ObserveAllSkipsIneligible(cfg: LineCounterConfig, s: Counts, frameIdx: int, ts: seq<Track>)
    ensures ObserveAll(cfg, s, frameIdx, ts) == ObserveAll(cfg, s, frameIdx, EligibleOnly(cfg, ts))
    decreases |ts|
  {
    if ts != [] {
      var init, last := ts[..|ts| - 1], ts[|ts| - 1];
      var prev := EligibleOnly(cfg, init);
      ObserveAllSkipsIneligible(cfg, s, frameIdx, init);
      if Eligible(cfg, last) {
        assert (prev + [last])[..|prev|] == prev;
      } else {
        ObserveIneligible(cfg, ObserveAll(cfg, s, frameIdx, init), frameIdx, last);
      }
    }
  }

  /** A track observed against a line with coincident endpoints never counts. */
  lemma ObserveDegenerateLineNeverCounts(cfg: LineCounterConfig, s: Counts, frameIdx: int, t: Track)
    requires cfg.a == cfg.b
    ensures var s' := Observe(cfg, s, frameIdx, t);
      s'.countTotal == s.countTotal && s'.countByLabel == s.countByLabel && s'.lastCountFrame == s.lastCountFrame
  {
    SideDegenerateLine(Centroid(t.bbox), cfg.a);
  }

  /** Over a whole frame, a line with coincident endpoints leaves every counter as it was. */
  lemma {:induction false} ObserveAllDegenerateLineNeverCounts(cfg: LineCounterConfig, s: Counts, frameIdx: int, ts: seq<Track>)
    requires cfg.a == cfg.b
    ensures var s' := ObserveAll(cfg, s, frameIdx, ts);
      s'.countTotal == s.countTotal && s'.countByLabel == s.countByLabel && s'.lastCountFrame == s.lastCountFrame
    decreases |ts|
  {
    if ts != [] {
      ObserveAllDegenerateLineNeverCounts(cfg, s, frameIdx, ts[..|ts| - 1]);
      ObserveDegenerateLineNeverCounts(cfg, ObserveAll(cfg, s, frameIdx, ts[..|ts| - 1]), frameIdx, ts[|ts| - 1]);
    }
  }

  /**
    After a frame, an eligible track that is the last eligible one with its id
    in the list has left this frame's side and centroid under that id.
   */
  lemma {:induction false} ObserveAllAdvances(cfg: LineCounterConfig, s: Counts, frameIdx: int, ts: seq<Track>, k: nat)
    requires k < |ts| && Eligible(cfg, ts[k])
    requires forall m :: k < m < |ts| && Eligible(cfg, ts[m]) ==> ts[m].tid != ts[k].tid
    ensures ts[k].tid in ObserveAll(cfg, s, frameIdx, ts).lastSide
    ensures ts[k].tid in ObserveAll(cfg, s, frameIdx, ts).lastCentroid
    ensures ObserveAll(cfg, s, frameIdx, ts).lastSide[ts[k].tid] == TrackSide(cfg, ts[k])
    ensures ObserveAll(cfg, s, frameIdx, ts).lastCentroid[ts[k].tid] == Centroid(ts[k].bbox)
    decreases |ts|
  {
    var init := ts[..|ts| - 1];
    var last := ts[|ts| - 1];
    if k == |ts| - 1 {
      ObserveAdvances(cfg, ObserveAll(cfg, s, frameIdx, init), frameIdx, last);
    } else {
      assert init[k] == ts[k];
      ObserveAllAdvances(cfg, s, frameIdx, init, k);
      if Eligible(cfg, last) {
        ObserveAdvances(cfg, ObserveAll(cfg, s, frameIdx, init), frameIdx, last);
      }
    }
  }

  /** A frame keeps the keys of the per-id maps equal. */
  lemma {:induction false} ObserveAllKeepsKeysInStep(cfg: LineCounterConfig, s: Counts, frameIdx: int, ts: seq<Track>)
    requires s.lastSide.Keys == s.lastCentroid.Keys
    ensures ObserveAll(cfg, s, frameIdx, ts).lastSide.Keys == ObserveAll(cfg, s, frameIdx, ts).lastCentroid.Keys
    decreases |ts|
  {
    if ts != [] {
      ObserveAllKeepsKeysInStep(cfg, s, frameIdx, ts[..|ts| - 1]);
      ObserveKeepsKeysInStep(cfg, ObserveAll(cfg, s, frameIdx, ts[..|ts| - 1]), frameIdx, ts[|ts| - 1]);
    }
  }

  // ---------------------------------------------------------------------------
  // The total and the per-label counts
  // ---------------------------------------------------------------------------

  lemma {:induction false} SumValuesRemove(m: map<string, int>, k: string)
    requires k in m
    ensures SumValues(m) == m[k] + SumValues(m - {k})
    decreases |m|
  {
    var k' :| k' in m && SumValues(m) == m[k'] + SumValues(m - {k'});
    if k' != k {
      var mk := m - {k};
      var mk' := m - {k'};
      assert k in mk' && k' in mk;
      SumValuesRemove(mk', k);
      SumValuesRemove(mk, k');
      assert mk' - {k} == mk - {k'};
    }
  }

  /** Adding inc to one label adds inc to the sum of all labels. */
  lemma AddToLabelSum(m: map<string, int>, name: string, inc: int)
    ensures SumValues(AddToLabel(m, name, inc)) == SumValues(m) + inc
  {
    var m' := AddToLabel(m, name, inc);
    SumValuesRemove(m', name);
    assert m' - {name} == m - {name};
    if name in m {
      SumValuesRemove(m, name);
    } else {
      assert m - {name} == m;
    }
  }

  /** Observing a track moves the total and the sum of the labels together. */
  lemma ObserveKeepsBalance(cfg: LineCounterConfig, s: Counts, frameIdx: int, t: Track)
    ensures var s' := Observe(cfg, s, frameIdx, t);
      SumValues(s'.countByLabel) - s'.countTotal == SumValues(s.countByLabel) - s.countTotal
  {
    ObserveCountsIff(cfg, s, frameIdx, t);
    var s' := Observe(cfg, s, frameIdx, t);
    if s'.countTotal != s.countTotal {
      AddToLabelSum(s.countByLabel, Direction(s.lastCentroid[t.tid], Centroid(t.bbox)), 1);
    }
  }

  /** A frame keeps countTotal equal to the sum of countByLabel when it was so before. */
  lemma {:induction false} ObserveAllKeepsBalance(cfg: LineCounterConfig, s: Counts, frameIdx: int, ts: seq<Track>)
    ensures var s' := ObserveAll(cfg, s, frameIdx, ts);
      SumValues(s'.countByLabel) - s'.countTotal == SumValues(s.countByLabel) - s.countTotal
    decreases |ts|
  {
    if ts != [] {
      ObserveAllKeepsBalance(cfg, s, frameIdx, ts[..|ts| - 1]);
      ObserveKeepsBalance(cfg, ObserveAll(cfg, s, frameIdx, ts[..|ts| - 1]), frameIdx, ts[|ts| - 1]);
    }
  }

  // ---------------------------------------------------------------------------
  // A worked run on the default line
  // ---------------------------------------------------------------------------

  /** A stable track whose centroid is at height y. */
  function TrackAtHeight(y: real): Track
  {
    Track(1, Box(470.0, y - 10.0, 490.0, y + 10.0), 0, 0.9, 0, 2)
  }

  /**
    On the horizontal default line at y = 380, a track at y = 370 in frame 10
    and y = 390 in frame 11 is counted once as "IN"; back at y = 370 in
    frame 15 it is counted as "OUT", making the total 2.
   */
  lemma CrossingExample()
    ensures var s10 := ObserveAll(DefaultConfig, Empty, 10, [TrackAtHeight(370.0)]);
      var s11 := ObserveAll(DefaultConfig, s10, 11, [TrackAtHeight(390.0)]);
      var s15 := ObserveAll(DefaultConfig, s11, 15, [TrackAtHeight(370.0)]);
      && s10.countTotal == 0
      && s11.countTotal == 1 && s11.countByLabel == map[In := 1]
      && s15.countTotal == 2 && s15.countByLabel == map[In := 1, Out := 1]
  {
    var s10 := ObserveAll(DefaultConfig, Empty, 10, [TrackAtHeight(370.0)]);
    assert Centroid(TrackAtHeight(370.0).bbox) == Point(480.0, 370.0);
    assert Centroid(TrackAtHeight(390.0).bbox) == Point(480.0, 390.0);
    assert s10 == Observe(DefaultConfig, Empty, 10, TrackAtHeight(370.0));
    assert s10.lastSide == map[1 := -7600.0];
    var s11 := ObserveAll(DefaultConfig, s10, 11, [TrackAtHeight(390.0)]);
    assert s11 == Observe(DefaultConfig, s10, 11, TrackAtHeight(390.0));
    assert s11.countTotal == 1;
    var s15 := ObserveAll(DefaultConfig, s11, 15, [TrackAtHeight(370.0)]);
    assert s15 == Observe(DefaultConfig, s11, 15, TrackAtHeight(370.0));
    assert map[In := 1][Out := 0 + 1] == map[In := 1, Out := 1];
  }
}
