/**
 Person tracking on values: what one update does to the list of targets, and what
 the greedy matching guarantees.
 */
module TrackerSpec {
  import opened Lists
  import opened Wrappers
  import opened Numbers
  import opened Iou

  datatype Detection = Detection(bbox: Box, confidence: real)

  // A target at one moment; `missed` counts the updates since it was last matched.
  datatype View = View(id: int, bbox: Box, confidence: real, age: int, missed: int, history: seq<Box>)

  // ---------------------------------------------------------------- prediction

  // Summed drift of the two corners over the history, per axis.
  function Drift(h: seq<Box>): (int, int) {
    if |h| < 2 then (0, 0)
    else
      var rest := Drift(h[1..]);
      (rest.0 + (h[1].x1 - h[0].x1) + (h[1].x2 - h[0].x2),
       rest.1 + (h[1].y1 - h[0].y1) + (h[1].y2 - h[0].y2))
  }

  function Predict(v: View): Box {
    if |v.history| < 2 then v.bbox
    else
      var n := (2 * (|v.history| - 1)) as real;
      var vx, vy := Drift(v.history).0 as real / n, Drift(v.history).1 as real / n;
      Box(Truncate(v.bbox.x1 as real + vx), Truncate(v.bbox.y1 as real + vy),
          Truncate(v.bbox.x2 as real + vx), Truncate(v.bbox.y2 as real + vy))
  }

  function Aim(v: View): Box { if v.missed > 0 then Predict(v) else v.bbox }

  function Shift(b: Box, dx: int, dy: int): Box { Box(b.x1 + dx, b.y1 + dy, b.x2 + dx, b.y2 + dy) }

  lemma {:induction false} UniformDrift(h: seq<Box>, dx: int, dy: int)
    requires |h| >= 1 && forall i :: 0 < i < |h| ==> h[i] == Shift(h[i - 1], dx, dy)
    ensures Drift(h) == (2 * (|h| - 1) * dx, 2 * (|h| - 1) * dy)
  {
    if |h| >= 2 {
      forall i | 0 < i < |h[1..]| ensures h[1..][i] == Shift(h[1..][i - 1], dx, dy) {
        assert h[i + 1] == Shift(h[i], dx, dy);
      }
      UniformDrift(h[1..], dx, dy);
      assert h[1] == Shift(h[0], dx, dy);
      OneMore(|h| - 2, dx);
      OneMore(|h| - 2, dy);
    }
  }

  lemma OneMore(n: int, d: int)
    ensures 2 * (n + 1) * d == 2 * n * d + d + d
  {
  }

  lemma TruncateWhole(n: int)
    ensures Truncate(n as real) == n
  {
  }

  lemma Average(n: int, d: int)
    requires n > 0
    ensures (n * d) as real / n as real == d as real
  {
    assert (n * d) as real == n as real * d as real;
  }

  // A box that moved by the same step in every recorded frame is predicted one step ahead.
  lemma UniformMotionPredicted(v: View, dx: int, dy: int)
    requires |v.history| >= 2 && v.history[|v.history| - 1] == v.bbox
    requires forall i :: 0 < i < |v.history| ==> v.history[i] == Shift(v.history[i - 1], dx, dy)
    ensures Predict(v) == Shift(v.bbox, dx, dy)
  {
    UniformDrift(v.history, dx, dy);
    var n := 2 * (|v.history| - 1);
    Average(n, dx);
    Average(n, dy);
    TruncateWhole(v.bbox.x1 + dx);
    TruncateWhole(v.bbox.y1 + dy);
    TruncateWhole(v.bbox.x2 + dx);
    TruncateWhole(v.bbox.y2 + dy);
  }

  // The drift over a history is where it ends, seen from where it began.
  lemma {:induction false} DriftEnds(h: seq<Box>)
    requires h != []
    ensures var a, b := h[0], h[|h| - 1];
      Drift(h) == (b.x1 - a.x1 + b.x2 - a.x2, b.y1 - a.y1 + b.y2 - a.y2)
  {
    if |h| >= 2 { DriftEnds(h[1..]); }
  }

  // A target seen in the last update is looked for at its box, and so is one with a short
  // history.  Any other is looked for where the mean step of its two corners over the
  // whole history puts it.
  lemma AimedAt(v: View)
    ensures v.missed <= 0 || |v.history| < 2 ==> Aim(v) == v.bbox
    ensures v.missed > 0 && |v.history| >= 2 ==>
      var a, b, n := v.history[0], v.history[|v.history| - 1], (2 * (|v.history| - 1)) as real;
      var dx, dy := (b.x1 - a.x1 + b.x2 - a.x2) as real / n, (b.y1 - a.y1 + b.y2 - a.y2) as real / n;
      && TowardsZero(v.bbox.x1 as real + dx, Aim(v).x1) && TowardsZero(v.bbox.y1 as real + dy, Aim(v).y1)
      && TowardsZero(v.bbox.x2 as real + dx, Aim(v).x2) && TowardsZero(v.bbox.y2 as real + dy, Aim(v).y2)
  {
    if |v.history| >= 2 { DriftEnds(v.history); }
  }

  // ---------------------------------------------------------------- matching

  // The detections claimed by the first i targets.
  function Claimed(picks: seq<int>, i: nat): set<int>
    requires i <= |picks|
  {
    set j | 0 <= j < i && picks[j] >= 0 :: picks[j]
  }

  // `r` is the first of the unclaimed detections that overlap the box best, if any
  // overlaps it by more than the threshold; otherwise -1.
  ghost predicate IsBest(dets: seq<Detection>, claimed: set<int>, box: Box, minIou: real, r: int) {
    && -1 <= r < |dets|
    && (r == -1 ==> forall k :: 0 <= k < |dets| && k !in claimed ==> ComputeIou(box, dets[k].bbox) <= minIou)
    && (r >= 0 ==>
          && r !in claimed
          && ComputeIou(box, dets[r].bbox) > minIou
          && forall k :: 0 <= k < |dets| && k !in claimed ==>
               && ComputeIou(box, dets[k].bbox) <= ComputeIou(box, dets[r].bbox)
               && (k < r ==> ComputeIou(box, dets[k].bbox) < ComputeIou(box, dets[r].bbox)))
  }

  // Every target in turn takes its best detection among those left by earlier targets.
  ghost predicate Greedy(views: seq<View>, dets: seq<Detection>, minIou: real, picks: seq<int>) {
    && |picks| == |views|
    && forall i :: 0 <= i < |views| ==> IsBest(dets, Claimed(picks, i), Aim(views[i]), minIou, picks[i])
  }

  predicate OneToOne(picks: seq<int>) {
    forall i, j :: 0 <= i < j < |picks| && picks[j] >= 0 ==> picks[i] != picks[j]
  }

  lemma GreedyIsOneToOne(views: seq<View>, dets: seq<Detection>, minIou: real, picks: seq<int>)
    requires Greedy(views, dets, minIou, picks)
    ensures OneToOne(picks)
  {
    forall i, j | 0 <= i < j < |picks| && picks[j] >= 0 ensures picks[i] != picks[j] {
      assert IsBest(dets, Claimed(picks, j), Aim(views[j]), minIou, picks[j]);
    }
  }

  lemma ClaimedAlike(a: seq<int>, b: seq<int>, n: nat)
    requires n <= |a| && n <= |b| && forall i :: 0 <= i < n ==> a[i] == b[i]
    ensures Claimed(a, n) == Claimed(b, n)
  {
  }

  // The greedy rule leaves no choice.
  lemma {:induction false} GreedyIsUnique(views: seq<View>, dets: seq<Detection>, minIou: real,
                                          a: seq<int>, b: seq<int>, n: nat)
    requires Greedy(views, dets, minIou, a) && Greedy(views, dets, minIou, b) && n <= |views|
    ensures forall i :: 0 <= i < n ==> a[i] == b[i]
  {
    if n > 0 {
      GreedyIsUnique(views, dets, minIou, a, b, n - 1);
      ClaimedAlike(a, b, n - 1);
      BestIsUnique(dets, Claimed(a, n - 1), Aim(views[n - 1]), minIou, a[n - 1], b[n - 1]);
    }
  }

  lemma BestIsUnique(dets: seq<Detection>, claimed: set<int>, box: Box, minIou: real, r: int, q: int)
    requires IsBest(dets, claimed, box, minIou, r) && IsBest(dets, claimed, box, minIou, q)
    ensures r == q
  {
    if r >= 0 { assert ComputeIou(box, dets[r].bbox) > minIou; }
    if q >= 0 { assert ComputeIou(box, dets[q].bbox) > minIou; }
  }

  // ---------------------------------------------------------------- one update

  function Capped(h: seq<Box>): seq<Box> { if |h| > 10 then h[1..] else h }

  function Updated(v: View, d: Detection): View {
    View(v.id, d.bbox, d.confidence, v.age + 1, 0, Capped(v.history + [d.bbox]))
  }

  function Advance(v: View, dets: seq<Detection>, a: int): View {
    if 0 <= a < |dets| then Updated(v, dets[a]) else v.(missed := v.missed + 1)
  }

  function AdvanceAll(views: seq<View>, dets: seq<Detection>, picks: seq<int>): (r: seq<View>)
    requires |picks| == |views|
    ensures |r| == |views| && forall i :: 0 <= i < |views| ==> r[i] == Advance(views[i], dets, picks[i])
  {
    seq(|views|, i requires 0 <= i < |views| => Advance(views[i], dets, picks[i]))
  }

  function Unclaimed(dets: seq<Detection>, claimed: set<int>, from: nat): seq<Detection>
    decreases |dets| - from
  {
    if from >= |dets| then []
    else (if from in claimed then [] else [dets[from]]) + Unclaimed(dets, claimed, from + 1)
  }

  function Created(ds: seq<Detection>, lastId: int): (r: seq<View>)
    ensures |r| == |ds|
    ensures forall i :: 0 <= i < |ds| ==> r[i] == View(lastId + 1 + i, ds[i].bbox, ds[i].confidence, 0, 0, [ds[i].bbox])
  {
    seq(|ds|, i requires 0 <= i < |ds| => View(lastId + 1 + i, ds[i].bbox, ds[i].confidence, 0, 0, [ds[i].bbox]))
  }

  function Keep(views: seq<View>, maxAge: int): (r: seq<View>)
    ensures forall v :: v in r ==> v in views && v.missed < maxAge
  {
    if views == [] then []
    else (if views[0].missed < maxAge then [views[0]] else []) + Keep(views[1..], maxAge)
  }

  function Updating(views: seq<View>, dets: seq<Detection>, picks: seq<int>, maxAge: int, lastId: int): seq<View>
    requires |picks| == |views|
  {
    Keep(AdvanceAll(views, dets, picks)
         + Created(Unclaimed(dets, Claimed(picks, |picks|), 0), lastId), maxAge)
  }

  // ---------------------------------------------------------------- conservation

  // The detections shown by the targets matched or created in this update.
  function Fresh(views: seq<View>): seq<Detection> {
    if views == [] then [] else Shown(views[0]) + Fresh(views[1..])
  }

  function Shown(v: View): seq<Detection> { if v.missed == 0 then [Detection(v.bbox, v.confidence)] else [] }

  lemma {:induction false} FreshConcat(a: seq<View>, b: seq<View>)
    ensures Fresh(a + b) == Fresh(a) + Fresh(b)
  {
    if a == [] {
      assert a + b == b;
    } else {
      FreshConcat(a[1..], b);
      FirstOfJoin(a, b);
      FreshCons(a[0], a[1..] + b);
      Assoc(Shown(a[0]), Fresh(a[1..]), Fresh(b));
    }
  }

  lemma FreshCons(v: View, rest: seq<View>)
    ensures Fresh([v] + rest) == Shown(v) + Fresh(rest)
  {
    assert ([v] + rest)[1..] == rest;
  }

  lemma {:induction false} FreshSurvivesKeep(views: seq<View>, maxAge: int)
    requires maxAge >= 1
    ensures Fresh(Keep(views, maxAge)) == Fresh(views)
  {
    if views != [] {
      FreshSurvivesKeep(views[1..], maxAge);
      var kept := Keep(views[1..], maxAge);
      if views[0].missed < maxAge {
        FreshCons(views[0], kept);
      } else {
        assert [] + kept == kept && [] + Fresh(kept) == Fresh(kept);
      }
    }
  }

  lemma {:induction false} FreshOfCreated(ds: seq<Detection>, lastId: int)
    ensures Fresh(Created(ds, lastId)) == ds
  {
    if ds != [] {
      FreshOfCreated(ds[1..], lastId + 1);
      assert Created(ds, lastId)[1..] == Created(ds[1..], lastId + 1);
      assert ds == [ds[0]] + ds[1..];
    }
  }

  lemma {:induction false} TakeOne(dets: seq<Detection>, claimed: set<int>, k: int, from: nat)
    requires k !in claimed && 0 <= k < |dets|
    ensures multiset(Unclaimed(dets, claimed, from))
         == multiset(Unclaimed(dets, claimed + {k}, from)) + (if from <= k then multiset{dets[k]} else multiset{})
    decreases |dets| - from
  {
    if from < |dets| { TakeOne(dets, claimed, k, from + 1); }
  }

  lemma {:induction false} AllUnclaimed(dets: seq<Detection>, from: nat)
    requires from <= |dets|
    ensures Unclaimed(dets, {}, from) == dets[from..]
    decreases |dets| - from
  {
    if from < |dets| { AllUnclaimed(dets, from + 1); }
  }

  // Matched and left-over detections together are the detections, for every prefix of targets.
  lemma {:induction false} Split(views: seq<View>, dets: seq<Detection>, picks: seq<int>, n: nat)
    requires |picks| == |views| && n <= |views| && OneToOne(picks)
    requires forall i :: 0 <= i < |views| ==> -1 <= picks[i] < |dets| && views[i].missed >= 0
    ensures multiset(Fresh(AdvanceAll(views, dets, picks)[..n])) + multiset(Unclaimed(dets, Claimed(picks, n), 0))
         == multiset(dets)
  {
    var moved := AdvanceAll(views, dets, picks);
    if n == 0 {
      assert Claimed(picks, 0) == {};
      AllUnclaimed(dets, 0);
      assert moved[..0] == [] && dets[0..] == dets;
    } else {
      Split(views, dets, picks, n - 1);
      FreshSnoc(moved, n);
      ClaimedSnoc(picks, n);
      SplitStep(Fresh(moved[..n - 1]), dets, Claimed(picks, n - 1), picks[n - 1]);
    }
  }

  lemma FreshSnoc(views: seq<View>, n: nat)
    requires 0 < n <= |views|
    ensures Fresh(views[..n]) == Fresh(views[..n - 1]) + Shown(views[n - 1])
  {
    assert views[..n] == views[..n - 1] + [views[n - 1]];
    FreshConcat(views[..n - 1], [views[n - 1]]);
    FreshOfOne(views[n - 1]);
  }

  lemma SplitStep(shown: seq<Detection>, dets: seq<Detection>, claimed: set<int>, a: int)
    requires -1 <= a < |dets| && a !in claimed
    requires multiset(shown) + multiset(Unclaimed(dets, claimed, 0)) == multiset(dets)
    ensures multiset(shown + if a >= 0 then [dets[a]] else [])
          + multiset(Unclaimed(dets, claimed + (if a >= 0 then {a} else {}), 0)) == multiset(dets)
  {
    if a >= 0 {
      TakeOne(dets, claimed, a, 0);
    } else {
      assert shown + [] == shown && claimed + {} == claimed;
    }
  }

  lemma FreshOfOne(v: View)
    ensures Fresh([v]) == Shown(v)
  {
  }

  lemma ClaimedSnoc(picks: seq<int>, n: nat)
    requires 0 < n <= |picks|
    ensures Claimed(picks, n) == Claimed(picks, n - 1) + if picks[n - 1] >= 0 then {picks[n - 1]} else {}
  {
  }

  // The targets shown as current after an update are the detections, no more and no
  // fewer, exactly when targets may live for at least one update (or nothing was seen).
  lemma ConservationIff(views: seq<View>, dets: seq<Detection>, minIou: real, picks: seq<int>, maxAge: int, lastId: int)
    requires Greedy(views, dets, minIou, picks) && forall i :: 0 <= i < |views| ==> views[i].missed >= 0
    ensures multiset(Fresh(Updating(views, dets, picks, maxAge, lastId))) == multiset(dets)
       <==> maxAge >= 1 || dets == []
    ensures maxAge >= 1 ==> |Fresh(Updating(views, dets, picks, maxAge, lastId))| == |dets|
  {
    if maxAge >= 1 {
      GreedyIsOneToOne(views, dets, minIou, picks);
      GreedyPicks(views, dets, minIou, picks);
      Conserved(views, dets, picks, maxAge, lastId);
    } else {
      NoneKept(AdvanceAll(views, dets, picks) + Created(Unclaimed(dets, Claimed(picks, |picks|), 0), lastId), maxAge);
      assert multiset(dets) == multiset{} <==> dets == [] by { assert |multiset(dets)| == |dets|; }
    }
  }

  lemma GreedyPicks(views: seq<View>, dets: seq<Detection>, minIou: real, picks: seq<int>)
    requires Greedy(views, dets, minIou, picks)
    ensures forall i :: 0 <= i < |views| ==> -1 <= picks[i] < |dets|
  {
    forall i | 0 <= i < |views| ensures -1 <= picks[i] < |dets| {
      assert IsBest(dets, Claimed(picks, i), Aim(views[i]), minIou, picks[i]);
    }
  }

  lemma Conserved(views: seq<View>, dets: seq<Detection>, picks: seq<int>, maxAge: int, lastId: int)
    requires |picks| == |views| && OneToOne(picks) && maxAge >= 1
    requires forall i :: 0 <= i < |views| ==> -1 <= picks[i] < |dets| && views[i].missed >= 0
    ensures multiset(Fresh(Updating(views, dets, picks, maxAge, lastId))) == multiset(dets)
    ensures |Fresh(Updating(views, dets, picks, maxAge, lastId))| == |dets|
  {
    var moved := AdvanceAll(views, dets, picks);
    var rest := Unclaimed(dets, Claimed(picks, |picks|), 0);
    FreshSurvivesKeep(moved + Created(rest, lastId), maxAge);
    FreshConcat(moved, Created(rest, lastId));
    FreshOfCreated(rest, lastId);
    Split(views, dets, picks, |views|);
    assert moved[..|views|] == moved;
    SameBag(Fresh(moved), rest, dets);
  }

  lemma SameBag(a: seq<Detection>, b: seq<Detection>, all: seq<Detection>)
    requires multiset(a) + multiset(b) == multiset(all)
    ensures multiset(a + b) == multiset(all) && |a + b| == |all|
  {
    assert |multiset(a + b)| == |multiset(all)|;
  }

  lemma {:induction false} NoneKept(views: seq<View>, maxAge: int)
    requires maxAge <= 0 && forall i :: 0 <= i < |views| ==> views[i].missed >= 0
    ensures Keep(views, maxAge) == []
  {
    if views != [] { NoneKept(views[1..], maxAge); }
  }

  // ---------------------------------------------------------------- what every update keeps

  predicate GoodView(v: View) {
    v.missed >= 0 && 1 <= |v.history| <= 10 && v.history[|v.history| - 1] == v.bbox
  }

  // Distinct ids, none beyond the counter, and every history ends in the current box.
  predicate Good(views: seq<View>, lastId: int) {
    && (forall v :: v in views ==> GoodView(v) && v.id <= lastId)
    && (forall i, j :: 0 <= i < j < |views| ==> views[i].id < views[j].id)
  }

  lemma {:induction false} KeepIsGood(views: seq<View>, maxAge: int, lastId: int)
    requires Good(views, lastId)
    ensures Good(Keep(views, maxAge), lastId)
  {
    if views != [] {
      KeepIsGood(views[1..], maxAge, lastId);
      var rest := Keep(views[1..], maxAge);
      forall v | v in rest ensures views[0].id < v.id {
        assert v in views[1..];
      }
      if views[0].missed < maxAge {
        SortedCons(views[0], rest);
      }
    }
  }

  lemma SortedCons(v: View, rest: seq<View>)
    requires forall i, j :: 0 <= i < j < |rest| ==> rest[i].id < rest[j].id
    requires forall u :: u in rest ==> v.id < u.id
    ensures var all := [v] + rest; forall i, j :: 0 <= i < j < |all| ==> all[i].id < all[j].id
  {
    var all := [v] + rest;
    forall i, j | 0 <= i < j < |all| ensures all[i].id < all[j].id {
      assert all[j] == rest[j - 1] && all[j] in rest;
    }
  }

  lemma UpdatingIsGood(views: seq<View>, dets: seq<Detection>, picks: seq<int>, maxAge: int, lastId: int)
    requires |picks| == |views| && Good(views, lastId)
    ensures var n := |Unclaimed(dets, Claimed(picks, |picks|), 0)|;
            Good(Updating(views, dets, picks, maxAge, lastId), lastId + n)
  {
    var moved := AdvanceAll(views, dets, picks);
    var rest := Unclaimed(dets, Claimed(picks, |picks|), 0);
    var all := moved + Created(rest, lastId);
    forall i | 0 <= i < |all| ensures GoodView(all[i]) && all[i].id <= lastId + |rest| {
      if i < |moved| {
        assert views[i] in views && GoodView(views[i]);
      }
    }
    forall i, j | 0 <= i < j < |all| ensures all[i].id < all[j].id {
      if i < |moved| { assert views[i] in views; }
    }
    assert Good(all, lastId + |rest|);
    KeepIsGood(all, maxAge, lastId + |rest|);
  }

  // ---------------------------------------------------------------- what an update leaves

  // What target i is after an update: moved to the detection it was matched with, with the
  // last ten boxes as its history, or missed once more.
  predicate Successor(views: seq<View>, dets: seq<Detection>, picks: seq<int>, i: nat, v: View)
    requires i < |views| == |picks| && -1 <= picks[i] < |dets|
  {
    if picks[i] < 0 then v == views[i].(missed := views[i].missed + 1)
    else
      var d := dets[picks[i]];
      && v.id == views[i].id && v.bbox == d.bbox && v.confidence == d.confidence
      && v.age == views[i].age + 1 && v.missed == 0 && v.history == LastN(views[i].history + [d.bbox], 10)
  }

  // How many detections from a up to b were matched with no target.
  function Left(picks: seq<int>, a: nat, b: nat): nat
    requires a <= b
    decreases b - a
  {
    if a == b then 0 else (if a in picks then 0 else 1) + Left(picks, a + 1, b)
  }

  // The new target of detection k, matched with no target: ids go on from the last one.
  predicate Newcomer(dets: seq<Detection>, picks: seq<int>, lastId: int, k: nat, v: View)
    requires k < |dets|
  {
    && k !in picks
    && v == View(lastId + 1 + Left(picks, 0, k), dets[k].bbox, dets[k].confidence, 0, 0, [dets[k].bbox])
  }

  lemma {:induction false} KeepIff(views: seq<View>, maxAge: int, v: View)
    ensures v in Keep(views, maxAge) <==> v in views && v.missed < maxAge
  {
    if views != [] {
      KeepIff(views[1..], maxAge, v);
      assert v in views <==> v == views[0] || v in views[1..];
    }
  }

  lemma AdvanceIs(views: seq<View>, dets: seq<Detection>, picks: seq<int>, i: nat, v: View)
    requires i < |views| == |picks| && -1 <= picks[i] < |dets| && GoodView(views[i])
    ensures v == Advance(views[i], dets, picks[i]) <==> Successor(views, dets, picks, i, v)
  {
    if picks[i] >= 0 { LastNUnique(views[i].history + [dets[picks[i]].bbox], 10, Capped(views[i].history + [dets[picks[i]].bbox])); }
  }

  lemma ClaimedIff(picks: seq<int>, k: nat)
    ensures k in Claimed(picks, |picks|) <==> k in picks
  {
  }

  // The detections left over are in order, each at the place that counts those before it.
  lemma {:induction false} LeftOver(dets: seq<Detection>, picks: seq<int>, from: nat, k: nat)
    requires from <= k < |dets| && k !in picks
    ensures var rest := Unclaimed(dets, Claimed(picks, |picks|), from);
      Left(picks, from, k) < |rest| && rest[Left(picks, from, k)] == dets[k]
    decreases k - from
  {
    ClaimedIff(picks, from);
    if from < k { LeftOver(dets, picks, from + 1, k); }
  }

  lemma {:induction false} LeftOverFrom(dets: seq<Detection>, picks: seq<int>, from: nat, r: nat) returns (k: nat)
    requires from <= |dets| && r < |Unclaimed(dets, Claimed(picks, |picks|), from)|
    ensures from <= k < |dets| && k !in picks && Left(picks, from, k) == r
    decreases |dets| - from
  {
    ClaimedIff(picks, from);
    if from in picks {
      k := LeftOverFrom(dets, picks, from + 1, r);
    } else if r == 0 {
      k := from;
    } else {
      k := LeftOverFrom(dets, picks, from + 1, r - 1);
    }
  }

  lemma CreatedIff(dets: seq<Detection>, picks: seq<int>, lastId: int, v: View)
    ensures v in Created(Unclaimed(dets, Claimed(picks, |picks|), 0), lastId)
       <==> exists k :: 0 <= k < |dets| && Newcomer(dets, picks, lastId, k, v)
  {
    var rest := Unclaimed(dets, Claimed(picks, |picks|), 0);
    var created := Created(rest, lastId);
    if v in created {
      var r :| 0 <= r < |created| && created[r] == v;
      var k := LeftOverFrom(dets, picks, 0, r);
      LeftOver(dets, picks, 0, k);
      assert Newcomer(dets, picks, lastId, k, v);
    }
    if exists k :: 0 <= k < |dets| && Newcomer(dets, picks, lastId, k, v) {
      var k :| 0 <= k < |dets| && Newcomer(dets, picks, lastId, k, v);
      LeftOver(dets, picks, 0, k);
      assert created[Left(picks, 0, k)] == v;
    }
  }

  // Exactly the successors of the old targets and the newcomers are there after an update,
  // those that were missed fewer times than the limit.  By UpdatingIsGood they come in the
  // order of their ids, so this fixes the list.
  lemma UpdatedIff(views: seq<View>, dets: seq<Detection>, picks: seq<int>, maxAge: int, lastId: int, v: View)
    requires |picks| == |views| && Good(views, lastId) && forall i :: 0 <= i < |picks| ==> -1 <= picks[i] < |dets|
    ensures v in Updating(views, dets, picks, maxAge, lastId) <==>
      && v.missed < maxAge
      && ((exists i :: 0 <= i < |views| && Successor(views, dets, picks, i, v))
          || exists k :: 0 <= k < |dets| && Newcomer(dets, picks, lastId, k, v))
  {
    var moved := AdvanceAll(views, dets, picks);
    var created := Created(Unclaimed(dets, Claimed(picks, |picks|), 0), lastId);
    KeepIff(moved + created, maxAge, v);
    CreatedIff(dets, picks, lastId, v);
    assert v in moved + created <==> v in moved || v in created;
    forall i | 0 <= i < |views| ensures v == moved[i] <==> Successor(views, dets, picks, i, v) {
      assert views[i] in views;
      AdvanceIs(views, dets, picks, i, v);
    }
  }
}
