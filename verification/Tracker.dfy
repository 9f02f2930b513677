/** The tracker as written: target objects updated in place, matched by nested loops. */
module Tracker {
  import opened Iou
  import opened TrackerSpec

  class Target {
    const id: int
    var bbox: Box
    var confidence: real
    var age: int
    var missed: int
    var history: seq<Box>

    constructor (id: int, d: Detection)
      ensures View() == TrackerSpec.View(id, d.bbox, d.confidence, 0, 0, [d.bbox])
    {
      this.id, bbox, confidence, age, missed, history := id, d.bbox, d.confidence, 0, 0, [d.bbox];
    }

    function View(): View
      reads this
    {
      TrackerSpec.View(id, bbox, confidence, age, missed, history)
    }

    method Update(d: Detection)
      modifies this
      ensures View() == Updated(old(View()), d)
    {
      bbox, confidence := d.bbox, d.confidence;
      age := age + 1;
      missed := 0;
      history := history + [bbox];
      if |history| > 10 {
        history := history[1..];
      }
    }

    method MarkMissed()
      modifies this
      ensures View() == old(View()).(missed := old(missed) + 1)
    {
      missed := missed + 1;
    }
  }

  // The id counter shared by all trackers.
  class IdCounter {
    var last: int
    constructor () ensures last == 0 { last := 0; }
  }

  function Views(ts: seq<Target>): (vs: seq<View>)
    reads ts
    ensures |vs| == |ts| && forall i :: 0 <= i < |ts| ==> vs[i] == ts[i].View()
  {
    seq(|ts|, i requires 0 <= i < |ts| reads ts => ts[i].View())
  }

  predicate DistinctObjects(ts: seq<Target>) { forall i, j :: 0 <= i < j < |ts| ==> ts[i] != ts[j] }

  // area * max(confidence, 0.1)
  function Score(v: View): real {
    Area(v.bbox) as real * (if v.confidence > 0.1 then v.confidence else 0.1)
  }

  // The first of the current targets with the best score.
  ghost predicate IsPrimary(ts: seq<Target>, primary: Target?)
    reads ts, if primary == null then {} else {primary}
  {
    if primary == null then forall i :: 0 <= i < |ts| ==> ts[i].missed != 0
    else primary.missed == 0 && exists p :: 0 <= p < |ts| && ts[p] == primary && BestAt(ts, p)
  }

  ghost predicate BestAt(ts: seq<Target>, p: nat)
    requires p < |ts|
    reads ts
  {
    forall i {:trigger Score(ts[i].View())} :: 0 <= i < |ts| && ts[i].missed == 0 ==>
      Score(ts[i].View()) <= Score(ts[p].View()) && (i < p ==> Score(ts[i].View()) < Score(ts[p].View()))
  }

  // The targets that have not been missing for too long.
  function Living(ts: seq<Target>, maxAge: int): (r: seq<Target>)
    reads ts
    ensures forall t :: t in r ==> t in ts
  {
    if ts == [] then []
    else (if ts[0].missed < maxAge then [ts[0]] else []) + Living(ts[1..], maxAge)
  }

  lemma LivingFacts(ts: seq<Target>, maxAge: int)
    requires DistinctObjects(ts)
    ensures DistinctObjects(Living(ts, maxAge)) && Views(Living(ts, maxAge)) == Keep(Views(ts), maxAge)
  {
    LivingDistinct(ts, maxAge);
    LivingViews(ts, maxAge);
  }

  lemma {:induction false} LivingDistinct(ts: seq<Target>, maxAge: int)
    requires DistinctObjects(ts)
    ensures DistinctObjects(Living(ts, maxAge))
  {
    if ts != [] {
      LivingDistinct(ts[1..], maxAge);
      assert ts[0] !in Living(ts[1..], maxAge);
    }
  }

  lemma {:induction false} LivingViews(ts: seq<Target>, maxAge: int)
    ensures Views(Living(ts, maxAge)) == Keep(Views(ts), maxAge)
  {
    if ts != [] {
      LivingViews(ts[1..], maxAge);
      ViewsCons(ts[0], ts[1..]);
      ViewsCons(ts[0], Living(ts[1..], maxAge));
      assert ts == [ts[0]] + ts[1..];
    }
  }

  lemma ViewsCons(t: Target, ts: seq<Target>)
    ensures Views([t] + ts) == [t.View()] + Views(ts)
  {
  }

  class TargetTracker {
    const maxAge: int
    const minIou: real
    const ids: IdCounter
    var targets: seq<Target>
    var primary: Target?

    ghost function Owned(): set<object>
      reads this
    {
      set i | 0 <= i < |targets| :: targets[i] as object
    }

    ghost predicate Valid()
      reads this`targets, targets, ids
    {
      DistinctObjects(targets) && Good(Views(targets), ids.last)
    }

    constructor (maxAge: int, minIou: real, ids: IdCounter)
      ensures Valid() && targets == [] && primary == null
      ensures this.maxAge == maxAge && this.minIou == minIou && this.ids == ids
    {
      this.maxAge, this.minIou, this.ids := maxAge, minIou, ids;
      targets, primary := [], null;
    }

    // The best detection for one target, by a single pass over the detections.
    method BestFor(dets: seq<Detection>, claimed: set<int>, box: Box) returns (r: int)
      ensures IsBest(dets, claimed, box, minIou, r)
    {
      r := -1;
      var best := minIou;
      for k := 0 to |dets|
        invariant -1 <= r < k
        invariant best == (if r == -1 then minIou else ComputeIou(box, dets[r].bbox))
        invariant r >= 0 ==> r !in claimed && best > minIou
        invariant forall j :: 0 <= j < k && j !in claimed ==>
          ComputeIou(box, dets[j].bbox) <= best && (j < r ==> ComputeIou(box, dets[j].bbox) < best)
      {
        if k !in claimed {
          var overlap := ComputeIou(box, dets[k].bbox);
          if overlap > best {
            best, r := overlap, k;
          }
        }
      }
    }

    method Match(dets: seq<Detection>) returns (picks: seq<int>)
      ensures Greedy(Views(targets), dets, minIou, picks)
    {
      if targets == [] || dets == [] {
        picks := seq(|targets|, _ => -1);
        return;
      }
      picks := [];
      var used: set<int> := {};
      for i := 0 to |targets|
        invariant |picks| == i && used == Claimed(picks, i)
        invariant forall k :: 0 <= k < i ==>
          IsBest(dets, Claimed(picks, k), Aim(Views(targets)[k]), minIou, picks[k])
      {
        var r := BestFor(dets, used, Aim(targets[i].View()));
        ghost var before := picks;
        picks := picks + [r];
        forall k | 0 <= k <= i ensures Claimed(picks, k) == Claimed(before, k) { ClaimedAlike(picks, before, k); }
        ClaimedSnoc(picks, i + 1);
        if r >= 0 { used := used + {r}; }
      }
    }

    // Matched targets take their detection; the others age.
    method AdvanceTargets(dets: seq<Detection>, picks: seq<int>)
      requires DistinctObjects(targets) && |picks| == |targets|
      requires forall i :: 0 <= i < |picks| ==> -1 <= picks[i] < |dets|
      modifies targets
      ensures Views(targets) == AdvanceAll(old(Views(targets)), dets, picks)
    {
      ghost var before := Views(targets);
      for i := 0 to |targets|
        invariant forall k :: i <= k < |targets| ==> targets[k].View() == before[k]
        invariant forall k :: 0 <= k < i ==>
          targets[k].View() == if picks[k] >= 0 then Updated(before[k], dets[picks[k]]) else before[k]
      {
        if picks[i] >= 0 {
          targets[i].Update(dets[picks[i]]);
        }
      }
      for i := 0 to |targets|
        invariant forall k :: i <= k < |targets| ==>
          targets[k].View() == if picks[k] >= 0 then Updated(before[k], dets[picks[k]]) else before[k]
        invariant forall k :: 0 <= k < i ==> targets[k].View() == Advance(before[k], dets, picks[k])
      {
        if picks[i] < 0 {
          targets[i].MarkMissed();
        }
      }
    }

    method UnmatchedDetections(dets: seq<Detection>, used: set<int>) returns (rest: seq<Detection>)
      ensures rest == Unclaimed(dets, used, 0)
    {
      rest := [];
      for k := 0 to |dets|
        invariant rest + Unclaimed(dets, used, k) == Unclaimed(dets, used, 0)
      {
        if k !in used { rest := rest + [dets[k]]; }
      }
      assert rest + [] == rest;
    }

    // A new target with a fresh id for every given detection.
    method CreateTargets(rest: seq<Detection>)
      requires DistinctObjects(targets)
      modifies this`targets, ids
      ensures DistinctObjects(targets)
      ensures ids.last == old(ids.last) + |rest|
      ensures Views(targets) == old(Views(targets)) + Created(rest, old(ids.last))
      ensures forall t :: t in targets ==> t in old(targets) || fresh(t)
    {
      ghost var n := |targets|;
      ghost var start := targets;
      for k := 0 to |rest|
        invariant |targets| == n + k && start <= targets && DistinctObjects(targets)
        invariant ids.last == old(ids.last) + k
        invariant forall i :: 0 <= i < n ==> targets[i].View() == old(targets[i].View())
        invariant forall i :: n <= i < n + k ==> fresh(targets[i])
        invariant forall i :: 0 <= i < k ==> targets[n + i].View() == Created(rest, old(ids.last))[i]
      {
        ids.last := ids.last + 1;
        var target := new Target(ids.last, rest[k]);
        targets := targets + [target];
      }
    }

    // Drops the targets that have been missing for too long.
    method DropOld()
      requires DistinctObjects(targets)
      modifies this`targets
      ensures DistinctObjects(targets) && Views(targets) == Keep(old(Views(targets)), maxAge)
      ensures forall t :: t in targets ==> t in old(targets)
    {
      LivingFacts(targets, maxAge);
      targets := Living(targets, maxAge);
    }

    method SelectPrimary() returns (best: Target?)
      ensures IsPrimary(targets, best)
      ensures best == null || best in targets
    {
      best := null;
      ghost var p := -1;
      for i := 0 to |targets|
        invariant best == null <==> p == -1
        invariant best == null ==> forall k :: 0 <= k < i ==> targets[k].missed != 0
        invariant best != null ==> 0 <= p < i && targets[p] == best && best.missed == 0
        invariant best != null ==> forall k :: 0 <= k < i && targets[k].missed == 0 ==>
          Score(targets[k].View()) <= Score(best.View()) && (k < p ==> Score(targets[k].View()) < Score(best.View()))
      {
        if targets[i].missed == 0 && (best == null || Score(targets[i].View()) > Score(best.View())) {
          best := targets[i];
          p := i;
        }
      }
    }

    method Rebuild(dets: seq<Detection>, picks: seq<int>)
      requires DistinctObjects(targets) && |picks| == |targets|
      requires forall i :: 0 <= i < |picks| ==> -1 <= picks[i] < |dets|
      modifies this, targets, ids
      ensures DistinctObjects(targets) && IsPrimary(targets, primary)
      ensures Views(targets) == Updating(old(Views(targets)), dets, picks, maxAge, old(ids.last))
      ensures ids.last == old(ids.last) + |Unclaimed(dets, Claimed(picks, |picks|), 0)|
      ensures forall t :: t in targets ==> t in old(targets) || fresh(t)
    {
      AdvanceTargets(dets, picks);
      var rest := UnmatchedDetections(dets, Claimed(picks, |picks|));
      CreateTargets(rest);
      DropOld();
      RefreshPrimary();
    }

    method RefreshPrimary()
      modifies this`primary
      ensures IsPrimary(targets, primary) && Views(targets) == old(Views(targets))
    {
      primary := SelectPrimary();
    }

    method MatchAndRebuild(dets: seq<Detection>) returns (ghost picks: seq<int>)
      requires Valid()
      modifies this, targets, ids
      ensures Valid() && IsPrimary(targets, primary)
      ensures Greedy(old(Views(targets)), dets, minIou, picks)
      ensures Views(targets) == Updating(old(Views(targets)), dets, picks, maxAge, old(ids.last))
      ensures maxAge >= 1 ==> multiset(Fresh(Views(targets))) == multiset(dets)
      ensures maxAge >= 1 ==> (Fresh(Views(targets)) == [] <==> dets == [])
      ensures forall t :: t in targets ==> t in old(targets) || fresh(t)
    {
      ghost var before := Views(targets);
      ghost var lastId := ids.last;
      var matched := Match(dets);
      picks := matched;
      GreedyPicks(before, dets, minIou, picks);
      Rebuild(dets, matched);
      UpdateFacts(before, dets, minIou, picks, maxAge, lastId);
    }

    // One frame: the target list becomes the updated list, and the primary is the best
    // of the current targets.  With targets allowed to live, there is a primary exactly
    // when something was detected.
    method Update(dets: seq<Detection>) returns (r: Target?, ghost picks: seq<int>)
      requires Valid()
      modifies this, targets, ids
      ensures Valid() && r == primary && IsPrimary(targets, r)
      ensures Greedy(old(Views(targets)), dets, minIou, picks)
      ensures Views(targets) == Updating(old(Views(targets)), dets, picks, maxAge, old(ids.last))
      ensures maxAge >= 1 ==> multiset(Fresh(Views(targets))) == multiset(dets)
      ensures maxAge >= 1 ==> (r == null <==> dets == [])
      ensures r != null ==> r in targets && r.missed == 0
      ensures forall t :: t in targets ==> t in old(targets) || fresh(t)
    {
      picks := MatchAndRebuild(dets);
      r := primary;
      PrimaryIff(targets, r);
    }
  }

  lemma PrimaryIff(ts: seq<Target>, primary: Target?)
    requires IsPrimary(ts, primary)
    ensures primary == null <==> Fresh(Views(ts)) == []
    ensures primary != null ==> primary in ts && primary.missed == 0
  {
    FreshIffCurrent(Views(ts));
    if primary != null {
      var p :| 0 <= p < |ts| && ts[p] == primary && BestAt(ts, p);
      assert Views(ts)[p].missed == 0;
    }
  }

  // The score is the area times the confidence, which counts as a tenth at least; so a
  // target that is no smaller and no less sure never scores lower.
  lemma ScoreIs(v: View)
    ensures v.confidence >= 0.1 ==> Score(v) == Area(v.bbox) as real * v.confidence
    ensures v.confidence <= 0.1 ==> Score(v) == Area(v.bbox) as real * 0.1
  {
  }

  lemma LargerAndSurer(u: View, v: View)
    requires Area(u.bbox) <= Area(v.bbox) && u.confidence <= v.confidence
    ensures Score(u) <= Score(v)
  {
    var a, b := Area(u.bbox) as real, Area(v.bbox) as real;
    var p, q := if u.confidence > 0.1 then u.confidence else 0.1, if v.confidence > 0.1 then v.confidence else 0.1;
    assert Score(u) == a * p && Score(v) == b * q;
    Products(a, b, p, q);
  }

  lemma Products(a: real, b: real, p: real, q: real)
    requires 0.0 <= a <= b && 0.0 <= p <= q
    ensures a * p <= b * q
  {
    NotNegative(b - a, q);
    NotNegative(a, q - p);
    assert b * q == a * p + (b - a) * q + a * (q - p);
  }

  lemma NotNegative(x: real, y: real)
    requires x >= 0.0 && y >= 0.0
    ensures x * y >= 0.0
  {
  }

  // What an update promises about the new list, whatever the matching did.
  lemma UpdateFacts(views: seq<View>, dets: seq<Detection>, minIou: real, picks: seq<int>, maxAge: int, lastId: int)
    requires Greedy(views, dets, minIou, picks) && Good(views, lastId)
    ensures var after := Updating(views, dets, picks, maxAge, lastId);
      && Good(after, lastId + |Unclaimed(dets, Claimed(picks, |picks|), 0)|)
      && (maxAge >= 1 ==> multiset(Fresh(after)) == multiset(dets))
      && (maxAge >= 1 ==> (Fresh(after) == [] <==> dets == []))
  {
    assert forall i :: 0 <= i < |views| ==> views[i] in views;
    UpdatingIsGood(views, dets, picks, maxAge, lastId);
    ConservationIff(views, dets, minIou, picks, maxAge, lastId);
    assert |multiset(dets)| == |dets|;
  }

  lemma {:induction false} FreshIffCurrent(views: seq<View>)
    ensures Fresh(views) == [] <==> forall i :: 0 <= i < |views| ==> views[i].missed != 0
  {
    if views != [] {
      FreshIffCurrent(views[1..]);
      assert forall i :: 1 <= i < |views| ==> views[i] == views[1..][i - 1];
    }
  }
}
