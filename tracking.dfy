/**
  The greedy IoU tracker of src/tracker.py.

  Boxes and their intersection-over-union are pure functions. The per-frame
  update of the track table is specified stage by stage by pure functions
  (Aged, Pick/UsedAfter/Matched, NewTracks, Survivors, combined in Step), and
  the class IoUTracker performs the same update in place with loops whose
  postcondition is "the new table is Step of the old one". The lemmas at the
  end state what the tracker promises about Step.
 */
module Tracking {

  // ---------------------------------------------------------------------------
  // Boxes and intersection-over-union
  // ---------------------------------------------------------------------------

  /** An axis-aligned box in pixel coordinates, corners (x1, y1) and (x2, y2). */
  datatype Box = Box(x1: real, y1: real, x2: real, y2: real)

  /** One detection of a frame: its box, class id and confidence. */
  datatype Detection = Detection(bbox: Box, cls: int, conf: real)

  /** A live track; age counts frames since the last match, hits the matches so far. */
  datatype Track = Track(tid: int, bbox: Box, cls: int, conf: real, age: int, hits: int)

  function Max(a: real, b: real): real { if a >= b then a else b }

  function Min(a: real, b: real): real { if a <= b then a else b }

  lemma MulMono(w: real, h: real, w': real, h': real)
    requires 0.0 <= w <= w' && 0.0 <= h <= h'
    ensures w * h <= w' * h'
  {
    assert w * h <= w' * h;
  }

  lemma RatioInUnitInterval(x: real, y: real)
    requires 0.0 < x <= y
    ensures 0.0 < x / y <= 1.0
  {
    assert x / y * y == x;
  }

  /** Length of the interval [lo, hi], clamped to zero when it is empty. */
  function Extent(lo: real, hi: real): (r: real)
    ensures r >= 0.0 && (r > 0.0 <==> lo < hi)
  {
    Max(0.0, hi - lo)
  }

  /** Area of a box, clamped to zero when a side is empty or inverted. */
  function Area(b: Box): (r: real)
    ensures r >= 0.0
    ensures r > 0.0 <==> b.x1 < b.x2 && b.y1 < b.y2
  {
    var w, h := Extent(b.x1, b.x2), Extent(b.y1, b.y2);
    assert w > 0.0 && h > 0.0 ==> w * h > 0.0;
    MulMono(0.0, 0.0, w, h);
    w * h
  }

  /** Length of the overlap of the intervals [lo1, hi1] and [lo2, hi2], clamped to zero. */
  function Overlap(lo1: real, hi1: real, lo2: real, hi2: real): (r: real)
    ensures 0.0 <= r <= Extent(lo1, hi1) && r <= Extent(lo2, hi2)
  {
    Max(0.0, Min(hi1, hi2) - Max(lo1, lo2))
  }

  /** A rectangle of sides within those of box c has no more than c's area. */
  lemma AreaBound(w: real, h: real, c: Box)
    requires 0.0 <= w <= Extent(c.x1, c.x2) && 0.0 <= h <= Extent(c.y1, c.y2)
    ensures 0.0 <= w * h <= Area(c)
  {
    var wc, hc := Extent(c.x1, c.x2), Extent(c.y1, c.y2);
    assert Area(c) == wc * hc;
    MulMono(0.0, 0.0, w, h);
    MulMono(w, h, wc, hc);
  }

  /** Area of the overlap of two boxes, never more than either area. */
  function Intersection(a: Box, b: Box): (r: real)
    ensures 0.0 <= r
    ensures r <= Area(a) && r <= Area(b)
  {
    var w := Overlap(a.x1, a.x2, b.x1, b.x2);
    var h := Overlap(a.y1, a.y2, b.y1, b.y2);
    AreaBound(w, h, a);
    AreaBound(w, h, b);
    w * h
  }

  /**
    Intersection over union: 0 when the boxes do not overlap with positive
    area, otherwise a ratio in (0, 1].
   */
  function IoU(a: Box, b: Box): (r: real)
    ensures 0.0 <= r <= 1.0
    ensures r > 0.0 <==> Intersection(a, b) > 0.0
  {
    var inter := Intersection(a, b);
    if inter <= 0.0 then 0.0
    else
      var union := Area(a) + Area(b) - inter;
      if union > 0.0 then
        RatioInUnitInterval(inter, union);
        inter / union
      else 0.0
  }

  // ---------------------------------------------------------------------------
  // Greedy matching of one track
  // ---------------------------------------------------------------------------

  /** Detection j may be matched to track t: it is not used yet and has t's class. */
  predicate Candidate(t: Track, dets: seq<Detection>, used: seq<bool>, j: int)
    requires |used| == |dets|
  {
    0 <= j < |dets| && !used[j] && dets[j].cls == t.cls
  }

  /**
    The scan over the first n detections: index and IoU of the candidate with
    the strictly largest IoU seen so far, starting from (-1, 0).
   */
  function BestIn(t: Track, dets: seq<Detection>, used: seq<bool>, n: nat): (r: (int, real))
    requires |used| == |dets| && n <= |dets|
    ensures -1 <= r.0 < n
    decreases n
  {
    if n == 0 then (-1, 0.0)
    else
      var prev := BestIn(t, dets, used, n - 1);
      if Candidate(t, dets, used, n - 1) && IoU(t.bbox, dets[n - 1].bbox) > prev.1
      then (n - 1, IoU(t.bbox, dets[n - 1].bbox))
      else prev
  }

  /** The detection the greedy pass gives track t, or -1 when the best IoU is below th. */
  function Pick(t: Track, dets: seq<Detection>, used: seq<bool>, th: real): (j: int)
    requires |used| == |dets|
    ensures -1 <= j < |dets|
  {
    var best := BestIn(t, dets, used, |dets|);
    if best.0 >= 0 && best.1 >= th then best.0 else -1
  }

  /** The record of a track just matched to detection d. */
  function Rematch(t: Track, d: Detection): Track
  {
    t.(bbox := d.bbox, cls := d.cls, conf := d.conf, age := 0, hits := t.hits + 1)
  }

  /** The used-detection bitmap after the greedy pass has handled tracks ts[..i]. */
  function UsedAfter(ts: seq<Track>, dets: seq<Detection>, th: real, i: nat): (used: seq<bool>)
    requires i <= |ts|
    ensures |used| == |dets|
    decreases i
  {
    if i == 0 then seq(|dets|, _ => false)
    else
      var prev := UsedAfter(ts, dets, th, i - 1);
      var j := Pick(ts[i - 1], dets, prev, th);
      if j >= 0 then prev[j := true] else prev
  }

  /** The detection matched to track ts[i], or -1. */
  function Choice(ts: seq<Track>, dets: seq<Detection>, th: real, i: nat): (j: int)
    requires i < |ts|
    ensures -1 <= j < |dets|
  {
    Pick(ts[i], dets, UsedAfter(ts, dets, th, i), th)
  }

  /** The tracks after the greedy pass: each matched one rewritten from its detection. */
  function Matched(ts: seq<Track>, dets: seq<Detection>, th: real): (r: seq<Track>)
    ensures |r| == |ts|
  {
    seq(|ts|, i requires 0 <= i < |ts| => MatchedTrack(ts, dets, th, i))
  }

  /** Track ts[i] after the greedy pass. */
  function MatchedTrack(ts: seq<Track>, dets: seq<Detection>, th: real, i: nat): Track
    requires i < |ts|
  {
    var j := Choice(ts, dets, th, i);
    if j >= 0 then Rematch(ts[i], dets[j]) else ts[i]
  }

  /** Number of tracks among ts[..i] that the greedy pass matched. */
  function MatchCount(ts: seq<Track>, dets: seq<Detection>, th: real, i: nat): nat
    requires i <= |ts|
    decreases i
  {
    if i == 0 then 0
    else MatchCount(ts, dets, th, i - 1) + (if Choice(ts, dets, th, i - 1) >= 0 then 1 else 0)
  }

  // ---------------------------------------------------------------------------
  // The other stages of an update
  // ---------------------------------------------------------------------------

  /** Every track one frame older. */
  function Aged(ts: seq<Track>): (r: seq<Track>)
    ensures |r| == |ts|
  {
    seq(|ts|, i requires 0 <= i < |ts| => ts[i].(age := ts[i].age + 1))
  }

  /** A new track for detection d with id tid. */
  function Spawn(d: Detection, tid: int): Track
  {
    Track(tid, d.bbox, d.cls, d.conf, 0, 1)
  }

  /** The tracks created, in order, for the unused detections among dets[..n]. */
  function NewTracks(dets: seq<Detection>, used: seq<bool>, firstId: int, n: nat): (r: seq<Track>)
    requires |used| == |dets| && n <= |dets|
    ensures |r| <= n
    ensures forall k :: 0 <= k < |r| ==> r[k].tid == firstId + k && r[k].age == 0 && r[k].hits == 1
    decreases n
  {
    if n == 0 then []
    else
      var prev := NewTracks(dets, used, firstId, n - 1);
      if used[n - 1] then prev else prev + [Spawn(dets[n - 1], firstId + |prev|)]
  }

  /** The tracks whose age does not exceed maxAge, in their original order. */
  function Survivors(ts: seq<Track>, maxAge: int): (r: seq<Track>)
    ensures |r| <= |ts|
    ensures forall t :: t in r <==> t in ts && t.age <= maxAge
  {
    if ts == [] then []
    else
      var rest := Survivors(ts[1..], maxAge);
      if ts[0].age <= maxAge then [ts[0]] + rest else rest
  }

  /** The tracker's state: its live tracks and the next id to hand out. */
  datatype Table = Table(tracks: seq<Track>, nextId: int)

  /** One update: age, match greedily, create tracks for leftovers, drop the stale. */
  function Step(tab: Table, dets: seq<Detection>, th: real, maxAge: int): Table
  {
    var aged := Aged(tab.tracks);
    var used := UsedAfter(aged, dets, th, |aged|);
    var born := NewTracks(dets, used, tab.nextId, |dets|);
    Table(Survivors(Matched(aged, dets, th) + born, maxAge), tab.nextId + |born|)
  }

  // ---------------------------------------------------------------------------
  // Invariant of the table
  // ---------------------------------------------------------------------------

  predicate DistinctIds(ts: seq<Track>)
  {
    forall i, k :: 0 <= i < k < |ts| ==> ts[i].tid != ts[k].tid
  }

  /** Ids positive, distinct and below nextId; ages within [0, maxAge]; hits positive. */
  predicate TableOk(tab: Table, maxAge: int)
  {
    && tab.nextId >= 1
    && (forall t :: t in tab.tracks ==> 1 <= t.tid < tab.nextId && 0 <= t.age <= maxAge && t.hits >= 1)
    && DistinctIds(tab.tracks)
  }

  // ---------------------------------------------------------------------------
  // The tracker object
  // ---------------------------------------------------------------------------

  /** Searches the detections for the best candidate of track t (the inner loop of update). */
  method BestDetection(t: Track, dets: seq<Detection>, used: array<bool>) returns (bestJ: int, bestIou: real)
    requires used.Length == |dets|
    ensures (bestJ, bestIou) == BestIn(t, dets, used[..], |dets|)
  {
    bestIou := 0.0;
    bestJ := -1;
    for j := 0 to |dets|
      invariant (bestJ, bestIou) == BestIn(t, dets, used[..], j)
    {
      if used[j] {
        continue;
      }
      if dets[j].cls != t.cls {
        continue;
      }
      var v := IoU(t.bbox, dets[j].bbox);
      if v > bestIou {
        bestIou := v;
        bestJ := j;
      }
    }
  }

  class IoUTracker {
    const iouTh: real
    const maxAge: int
    var nextId: int
    var tracks: seq<Track>

    ghost function State(): Table
      reads this
    {
      Table(tracks, nextId)
    }

    ghost predicate Valid()
      reads this
    {
      TableOk(State(), maxAge)
    }

    constructor (iouTh: real := 0.3, maxAge: int := 30)
      ensures this.iouTh == iouTh && this.maxAge == maxAge
      ensures tracks == [] && nextId == 1
      ensures Valid()
    {
      this.iouTh := iouTh;
      this.maxAge := maxAge;
      nextId := 1;
      tracks := [];
    }

    /** Runs one frame of detections through the tracker and returns the live tracks. */
    method Update(dets: seq<Detection>) returns (r: seq<Track>)
      requires Valid()
      modifies this
      ensures State() == Step(old(State()), dets, iouTh, maxAge)
      ensures r == tracks
      ensures Valid() && nextId >= old(nextId)
      ensures forall k :: 0 <= k < |r| ==> r[k].age <= maxAge
    {
      AgeTracks();
      var used := MatchTracks(dets);
      CreateTracks(dets, used);
      tracks := Survivors(tracks, maxAge);
      r := tracks;
      StepKeepsTableOk(old(State()), dets, iouTh, maxAge);
    }

    /** Ages every live track by one frame. */
    method AgeTracks()
      modifies this
      ensures tracks == Aged(old(tracks)) && nextId == old(nextId)
    {
      for i := 0 to |tracks|
        invariant |tracks| == |old(tracks)|
        invariant forall k :: 0 <= k < i ==> tracks[k] == old(tracks)[k].(age := old(tracks)[k].age + 1)
        invariant forall k :: i <= k < |tracks| ==> tracks[k] == old(tracks)[k]
        invariant nextId == old(nextId)
      {
        tracks := tracks[i := tracks[i].(age := tracks[i].age + 1)];
      }
    }

    /** The greedy pass: each track in list order takes its best unused detection. */
    method MatchTracks(dets: seq<Detection>) returns (used: array<bool>)
      modifies this
      ensures fresh(used) && used.Length == |dets|
      ensures used[..] == UsedAfter(old(tracks), dets, iouTh, |old(tracks)|)
      ensures tracks == Matched(old(tracks), dets, iouTh) && nextId == old(nextId)
    {
      ghost var orig := tracks;
      var ts := tracks;
      used := new bool[|dets|](_ => false);
      assert used[..] == UsedAfter(orig, dets, iouTh, 0);
      for i := 0 to |ts|
        modifies used
        invariant |ts| == |orig|
        invariant used[..] == UsedAfter(orig, dets, iouTh, i)
        invariant forall k :: 0 <= k < i ==> ts[k] == MatchedTrack(orig, dets, iouTh, k)
        invariant forall k :: i <= k < |ts| ==> ts[k] == orig[k]
      {
        var t := ts[i];
        ghost var before := used[..];
        var bestJ, bestIou := BestDetection(t, dets, used);
        assert Choice(orig, dets, iouTh, i) == Pick(t, dets, before, iouTh);
        if bestJ >= 0 && bestIou >= iouTh {
          ts := ts[i := Rematch(t, dets[bestJ])];
          used[bestJ] := true;
          assert used[..] == before[bestJ := true];
        }
      }
      tracks := ts;
      assert tracks == Matched(orig, dets, iouTh);
    }

    /** Appends a new track, with the next id, for every detection left unused. */
    method CreateTracks(dets: seq<Detection>, used: array<bool>)
      requires used.Length == |dets|
      modifies this
      ensures tracks == old(tracks) + NewTracks(dets, used[..], old(nextId), |dets|)
      ensures nextId == old(nextId) + |NewTracks(dets, used[..], old(nextId), |dets|)|
    {
      for j := 0 to |dets|
        invariant tracks == old(tracks) + NewTracks(dets, used[..], old(nextId), j)
        invariant nextId == old(nextId) + |NewTracks(dets, used[..], old(nextId), j)|
      {
        if used[j] {
          continue;
        }
        tracks := tracks + [Spawn(dets[j], nextId)];
        nextId := nextId + 1;
      }
    }
  }

  // ---------------------------------------------------------------------------
  // Properties of IoU
  // ---------------------------------------------------------------------------

  /** IoU does not depend on the order of its arguments. */
  lemma IoUSymmetric(a: Box, b: Box)
    ensures IoU(a, b) == IoU(b, a)
  {
    assert Overlap(a.x1, a.x2, b.x1, b.x2) == Overlap(b.x1, b.x2, a.x1, a.x2);
    assert Overlap(a.y1, a.y2, b.y1, b.y2) == Overlap(b.y1, b.y2, a.y1, a.y2);
    assert Intersection(a, b) == Intersection(b, a);
  }

  /** A box with positive area has IoU exactly 1 with itself. */
  lemma IoUSelf(b: Box)
    requires Area(b) > 0.0
    ensures IoU(b, b) == 1.0
  {
    assert Intersection(b, b) == Area(b);
  }

  /** Half-overlapping 10x10 squares: overlap 25 over union 175. */
  lemma IoUExample()
    ensures IoU(Box(0.0, 0.0, 10.0, 10.0), Box(5.0, 5.0, 15.0, 15.0)) == 25.0 / 175.0
  {
  }

  // ---------------------------------------------------------------------------
  // Properties of greedy matching
  // ---------------------------------------------------------------------------

  /**
    The scan returns the first candidate with the largest IoU, provided that
    IoU is positive; it returns -1 exactly when every candidate has IoU 0.
   */
  lemma {:induction false} BestInIsGreedyBest(t: Track, dets: seq<Detection>, used: seq<bool>, n: nat)
    requires |used| == |dets| && n <= |dets|
    ensures var best := BestIn(t, dets, used, n);
      && (best.0 == -1 <==> forall k :: 0 <= k < n && Candidate(t, dets, used, k) ==> IoU(t.bbox, dets[k].bbox) == 0.0)
      && (best.0 == -1 ==> best.1 == 0.0)
      && (best.0 >= 0 ==> Candidate(t, dets, used, best.0) && best.1 == IoU(t.bbox, dets[best.0].bbox) > 0.0)
      && (forall k :: 0 <= k < n && Candidate(t, dets, used, k) ==> IoU(t.bbox, dets[k].bbox) <= best.1)
      && (forall k :: 0 <= k < best.0 && Candidate(t, dets, used, k) ==> IoU(t.bbox, dets[k].bbox) < best.1)
    decreases n
  {
    if n > 0 {
      BestInIsGreedyBest(t, dets, used, n - 1);
    }
  }

  /**
    A track is matched only to an unused detection of its own class whose IoU
    is positive, at least th, largest among candidates and first among equals;
    it is left unmatched exactly when no candidate has a positive IoU >= th.
   */
  lemma PickIsThresholdedBest(t: Track, dets: seq<Detection>, used: seq<bool>, th: real)
    requires |used| == |dets|
    ensures var j := Pick(t, dets, used, th);
      && (j >= 0 ==>
            && Candidate(t, dets, used, j)
            && IoU(t.bbox, dets[j].bbox) > 0.0
            && IoU(t.bbox, dets[j].bbox) >= th
            && (forall k :: Candidate(t, dets, used, k) ==> IoU(t.bbox, dets[k].bbox) <= IoU(t.bbox, dets[j].bbox))
            && (forall k :: 0 <= k < j && Candidate(t, dets, used, k) ==> IoU(t.bbox, dets[k].bbox) < IoU(t.bbox, dets[j].bbox)))
      && (j == -1 <==> forall k :: Candidate(t, dets, used, k) ==> IoU(t.bbox, dets[k].bbox) == 0.0 || IoU(t.bbox, dets[k].bbox) < th)
  {
    BestInIsGreedyBest(t, dets, used, |dets|);
  }

  /** Once the greedy pass marks a detection used, it stays used. */
  lemma {:induction false} UsedMonotone(ts: seq<Track>, dets: seq<Detection>, th: real, i: nat, k: nat, j: int)
    requires i <= k <= |ts| && 0 <= j < |dets|
    requires UsedAfter(ts, dets, th, i)[j]
    ensures UsedAfter(ts, dets, th, k)[j]
    decreases k
  {
    if k > i {
      UsedMonotone(ts, dets, th, i, k - 1, j);
    }
  }

  /** A detection is used after tracks ts[..i] exactly when one of them chose it. */
  lemma {:induction false} UsedIffChosen(ts: seq<Track>, dets: seq<Detection>, th: real, i: nat, j: int)
    requires i <= |ts| && 0 <= j < |dets|
    ensures UsedAfter(ts, dets, th, i)[j] <==> exists k :: 0 <= k < i && Choice(ts, dets, th, k) == j
    decreases i
  {
    if i > 0 {
      UsedIffChosen(ts, dets, th, i - 1, j);
      if Choice(ts, dets, th, i - 1) == j {
        assert UsedAfter(ts, dets, th, i)[j];
      }
    }
  }

  /** No detection is matched to two tracks. */
  lemma ChoicesDistinct(ts: seq<Track>, dets: seq<Detection>, th: real, i: nat, k: nat)
    requires i < k < |ts|
    requires Choice(ts, dets, th, i) >= 0
    ensures Choice(ts, dets, th, k) != Choice(ts, dets, th, i)
  {
    var j := Choice(ts, dets, th, i);
    assert UsedAfter(ts, dets, th, i + 1)[j];
    UsedMonotone(ts, dets, th, i + 1, k, j);
    PickIsThresholdedBest(ts[k], dets, UsedAfter(ts, dets, th, k), th);
  }

  /** Number of true entries of a bitmap. */
  function CountTrue(s: seq<bool>): nat
  {
    if s == [] then 0 else CountTrue(s[..|s| - 1]) + (if s[|s| - 1] then 1 else 0)
  }

  lemma {:induction false} CountTrueSet(s: seq<bool>, j: int)
    requires 0 <= j < |s| && !s[j]
    ensures CountTrue(s[j := true]) == CountTrue(s) + 1
    decreases |s|
  {
    var s' := s[j := true];
    if j == |s| - 1 {
      assert s'[..|s| - 1] == s[..|s| - 1];
    } else {
      assert s'[..|s| - 1] == s[..|s| - 1][j := true];
      CountTrueSet(s[..|s| - 1], j);
    }
  }

  /** The bitmap holds exactly one mark per matched track. */
  lemma {:induction false} UsedCountIsMatchCount(ts: seq<Track>, dets: seq<Detection>, th: real, i: nat)
    requires i <= |ts|
    ensures CountTrue(UsedAfter(ts, dets, th, i)) == MatchCount(ts, dets, th, i)
    decreases i
  {
    if i == 0 {
      var none := UsedAfter(ts, dets, th, 0);
      assert forall n :: 0 <= n <= |none| ==> none[..n] == seq(n, _ => false);
      AllFalseCount(|none|);
      assert none[..|none|] == none;
    } else {
      UsedCountIsMatchCount(ts, dets, th, i - 1);
      var prev := UsedAfter(ts, dets, th, i - 1);
      var j := Choice(ts, dets, th, i - 1);
      if j >= 0 {
        PickIsThresholdedBest(ts[i - 1], dets, prev, th);
        CountTrueSet(prev, j);
      }
    }
  }

  lemma {:induction false} AllFalseCount(n: nat)
    ensures CountTrue(seq(n, _ => false)) == 0
    decreases n
  {
    if n > 0 {
      assert seq(n, _ => false)[..n - 1] == seq(n - 1, _ => false);
      AllFalseCount(n - 1);
    }
  }

  /** One new track per unused detection. */
  lemma {:induction false} NewTracksCount(dets: seq<Detection>, used: seq<bool>, firstId: int, n: nat)
    requires |used| == |dets| && n <= |dets|
    ensures |NewTracks(dets, used, firstId, n)| + CountTrue(used[..n]) == n
    decreases n
  {
    if n > 0 {
      NewTracksCount(dets, used, firstId, n - 1);
      assert used[..n][..n - 1] == used[..n - 1];
    }
  }

  /** The indices j < n of the detections left unused, in increasing order. */
  function Unused(used: seq<bool>, n: nat): (u: seq<int>)
    requires n <= |used|
    ensures forall k :: 0 <= k < |u| ==> 0 <= u[k] < n && !used[u[k]]
    ensures forall j :: 0 <= j < n && !used[j] ==> j in u
    ensures forall k, m :: 0 <= k < m < |u| ==> u[k] < u[m]
    decreases n
  {
    if n == 0 then []
    else
      var prev := Unused(used, n - 1);
      if used[n - 1] then prev else prev + [n - 1]
  }

  /**
    New track k is spawned from the k-th unused detection, in detection order,
    and takes id firstId + k; every unused detection gets exactly one track.
   */
  lemma {:induction false} NewTracksFromUnused(dets: seq<Detection>, used: seq<bool>, firstId: int, n: nat)
    requires |used| == |dets| && n <= |dets|
    ensures var r := NewTracks(dets, used, firstId, n);
      var u := Unused(used, n);
      |r| == |u| && forall k :: 0 <= k < |r| ==> r[k] == Spawn(dets[u[k]], firstId + k)
    decreases n
  {
    if n > 0 {
      NewTracksFromUnused(dets, used, firstId, n - 1);
    }
  }

  // ---------------------------------------------------------------------------
  // Properties of removal
  // ---------------------------------------------------------------------------

  /** Removal works element by element, so survivors keep their relative order. */
  lemma {:induction false} SurvivorsConcat(a: seq<Track>, b: seq<Track>, maxAge: int)
    ensures Survivors(a + b, maxAge) == Survivors(a, maxAge) + Survivors(b, maxAge)
    decreases |a|
  {
    if a == [] {
      assert a + b == b;
    } else {
      assert (a + b)[1..] == a[1..] + b;
      SurvivorsConcat(a[1..], b, maxAge);
    }
  }

  /** When no track is too old, removal keeps the list as it is. */
  lemma {:induction false} SurvivorsKeepAll(ts: seq<Track>, maxAge: int)
    requires forall t :: t in ts ==> t.age <= maxAge
    ensures Survivors(ts, maxAge) == ts
    decreases |ts|
  {
    if ts != [] {
      assert forall t :: t in ts[1..] ==> t in ts;
      SurvivorsKeepAll(ts[1..], maxAge);
    }
  }

  lemma {:induction false} SurvivorsDistinct(ts: seq<Track>, maxAge: int)
    requires DistinctIds(ts)
    ensures DistinctIds(Survivors(ts, maxAge))
    decreases |ts|
  {
    if ts != [] {
      SurvivorsDistinct(ts[1..], maxAge);
      var rest := Survivors(ts[1..], maxAge);
      if ts[0].age <= maxAge {
        forall t | t in rest
          ensures t.tid != ts[0].tid
        {
          assert t in ts[1..];
        }
        var r := [ts[0]] + rest;
        forall i, k | 0 <= i < k < |r|
          ensures r[i].tid != r[k].tid
        {
          if i == 0 {
            assert r[k] in rest;
          } else {
            assert r[i] == rest[i - 1] && r[k] == rest[k - 1];
          }
        }
      }
    }
  }

  // ---------------------------------------------------------------------------
  // Properties of a whole update
  // ---------------------------------------------------------------------------

  /**
    A matched track takes box, class and confidence from its detection, age 0
    and one more hit; an unmatched one only ages by one; ids never change.
   */
  lemma MatchedTrackFields(ts: seq<Track>, dets: seq<Detection>, th: real, i: nat)
    requires i < |ts|
    ensures var aged := Aged(ts);
      var m := Matched(aged, dets, th)[i];
      var j := Choice(aged, dets, th, i);
      && m.tid == ts[i].tid
      && (j >= 0 ==> m == Track(ts[i].tid, dets[j].bbox, dets[j].cls, dets[j].conf, 0, ts[i].hits + 1))
      && (j < 0 ==> m == ts[i].(age := ts[i].age + 1))
  {
  }

  lemma MatchedTrackBounds(tab: Table, dets: seq<Detection>, th: real, maxAge: int, i: nat)
    requires TableOk(tab, maxAge) && i < |tab.tracks|
    ensures var m := MatchedTrack(Aged(tab.tracks), dets, th, i);
      m.tid == tab.tracks[i].tid && 1 <= m.tid < tab.nextId && m.hits >= 1 && m.age >= 0
  {
    assert tab.tracks[i] in tab.tracks;
  }

  /** After the greedy pass ids are unchanged, and ids, hits and ages still have the table's bounds. */
  lemma MatchedKeepsBounds(tab: Table, dets: seq<Detection>, th: real, maxAge: int)
    requires TableOk(tab, maxAge)
    ensures var m := Matched(Aged(tab.tracks), dets, th);
      && |m| == |tab.tracks|
      && (forall i :: 0 <= i < |m| ==> m[i].tid == tab.tracks[i].tid)
      && DistinctIds(m)
      && forall t :: t in m ==> 1 <= t.tid < tab.nextId && 0 <= t.age && t.hits >= 1
  {
    var ts := tab.tracks;
    var m := Matched(Aged(ts), dets, th);
    forall i | 0 <= i < |m|
      ensures m[i].tid == ts[i].tid && 1 <= m[i].tid < tab.nextId && m[i].hits >= 1 && m[i].age >= 0
    {
      MatchedTrackBounds(tab, dets, th, maxAge, i);
    }
    forall t | t in m
      ensures 1 <= t.tid < tab.nextId && 0 <= t.age && t.hits >= 1
    {
      var i :| 0 <= i < |m| && m[i] == t;
    }
    MatchedIdsDistinct(tab, dets, th, maxAge);
  }

  lemma MatchedIdsDistinct(tab: Table, dets: seq<Detection>, th: real, maxAge: int)
    requires TableOk(tab, maxAge)
    ensures DistinctIds(Matched(Aged(tab.tracks), dets, th))
  {
    var m := Matched(Aged(tab.tracks), dets, th);
    forall i, k | 0 <= i < k < |m|
      ensures m[i].tid != m[k].tid
    {
      MatchedTrackBounds(tab, dets, th, maxAge, i);
      MatchedTrackBounds(tab, dets, th, maxAge, k);
    }
  }

  /** Appending tracks with consecutive ids from firstId keeps ids distinct. */
  lemma AppendBornBounds(m: seq<Track>, born: seq<Track>, firstId: int)
    requires firstId >= 1 && DistinctIds(m)
    requires forall t :: t in m ==> 1 <= t.tid < firstId && 0 <= t.age && t.hits >= 1
    requires forall k :: 0 <= k < |born| ==> born[k].tid == firstId + k && born[k].age == 0 && born[k].hits == 1
    ensures DistinctIds(m + born)
    ensures forall t :: t in m + born ==>
      && 1 <= t.tid < firstId + |born| && 0 <= t.age && t.hits >= 1
      && (t.tid >= firstId ==> t.age == 0 && t.hits == 1)
      && (t.tid < firstId ==> t in m)
  {
    var all := m + born;
    forall t | t in all
      ensures 1 <= t.tid < firstId + |born| && 0 <= t.age && t.hits >= 1
      ensures t.tid >= firstId ==> t.age == 0 && t.hits == 1
      ensures t.tid < firstId ==> t in m
    {
      var i :| 0 <= i < |all| && all[i] == t;
      if i < |m| {
        assert t in m;
      } else {
        assert t == born[i - |m|];
      }
    }
    forall i, k | 0 <= i < k < |all|
      ensures all[i].tid != all[k].tid
    {
      if k < |m| {
        assert all[i] == m[i] && all[k] == m[k];
      } else if i < |m| {
        assert all[i] in m;
        assert all[k] == born[k - |m|];
      } else {
        assert all[i] == born[i - |m|] && all[k] == born[k - |m|];
      }
    }
  }

  /**
    An update keeps ids distinct and below nextId, and ages bounded by maxAge.
    Ids are never reused: a track with an id at or above the old nextId is new,
    and one with an id below it is an old track carried through the greedy pass.
   */
  lemma StepKeepsTableOk(tab: Table, dets: seq<Detection>, th: real, maxAge: int)
    requires TableOk(tab, maxAge)
    ensures TableOk(Step(tab, dets, th, maxAge), maxAge)
    ensures Step(tab, dets, th, maxAge).nextId >= tab.nextId
    ensures forall t :: t in Step(tab, dets, th, maxAge).tracks && t.tid >= tab.nextId ==> t.age == 0 && t.hits == 1
    ensures forall t :: t in Step(tab, dets, th, maxAge).tracks && t.tid < tab.nextId ==> t in Matched(Aged(tab.tracks), dets, th)
  {
    var aged := Aged(tab.tracks);
    var used := UsedAfter(aged, dets, th, |aged|);
    var born := NewTracks(dets, used, tab.nextId, |dets|);
    var m := Matched(aged, dets, th);
    MatchedKeepsBounds(tab, dets, th, maxAge);
    AppendBornBounds(m, born, tab.nextId);
    SurvivorsDistinct(m + born, maxAge);
  }

  /** Each detection is consumed once: as a match or as exactly one new track. */
  lemma StepNewTrackCount(tab: Table, dets: seq<Detection>, th: real, maxAge: int)
    ensures var aged := Aged(tab.tracks);
      Step(tab, dets, th, maxAge).nextId - tab.nextId == |dets| - MatchCount(aged, dets, th, |aged|)
  {
    var aged := Aged(tab.tracks);
    var used := UsedAfter(aged, dets, th, |aged|);
    NewTracksCount(dets, used, tab.nextId, |dets|);
    UsedCountIsMatchCount(aged, dets, th, |aged|);
    assert used[..|dets|] == used;
  }

  /** With no detections an update only ages every track and drops the stale ones. */
  lemma StepNoDetections(tab: Table, th: real, maxAge: int)
    ensures Step(tab, [], th, maxAge) == Table(Survivors(Aged(tab.tracks), maxAge), tab.nextId)
  {
    var aged := Aged(tab.tracks);
    forall i | 0 <= i < |aged|
      ensures Choice(aged, [], th, i) == -1
    {
      assert BestIn(aged[i], [], UsedAfter(aged, [], th, i), 0) == (-1, 0.0);
    }
    assert Matched(aged, [], th) == aged;
    assert NewTracks([], UsedAfter(aged, [], th, |aged|), tab.nextId, 0) == [];
    assert aged + [] == aged;
  }

  /**
    The same positive-area box seen twice by an empty tracker gives one track,
    with one id throughout and two hits after the second frame.
   */
  lemma StepRepeatedBox(d: Detection, firstId: int, th: real, maxAge: int)
    requires Area(d.bbox) > 0.0 && th <= 1.0 && maxAge >= 0
    ensures Step(Table([], firstId), [d], th, maxAge) == Table([Spawn(d, firstId)], firstId + 1)
    ensures Step(Step(Table([], firstId), [d], th, maxAge), [d], th, maxAge)
         == Table([Spawn(d, firstId).(hits := 2)], firstId + 1)
  {
    var t1 := Step(Table([], firstId), [d], th, maxAge);
    assert UsedAfter([], [d], th, 0) == [false];
    assert NewTracks([d], [false], firstId, 1) == [Spawn(d, firstId)];
    assert t1 == Table([Spawn(d, firstId)], firstId + 1);
    var aged := Aged(t1.tracks);
    assert aged == [Spawn(d, firstId).(age := 1)];
    IoUSelf(d.bbox);
    assert UsedAfter(aged, [d], th, 0) == [false];
    assert BestIn(aged[0], [d], [false], 1) == (0, 1.0);
    assert Choice(aged, [d], th, 0) == 0;
    assert UsedAfter(aged, [d], th, 1) == [true];
    assert Matched(aged, [d], th) == [Spawn(d, firstId).(hits := 2)];
    assert NewTracks([d], [true], firstId + 1, 1) == [];
  }
}
