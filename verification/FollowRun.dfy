/** The person-following controller and its run loop. */
module FollowRun {
  import opened Wrappers
  import opened Numbers
  import opened Iou
  import opened TrackerSpec
  import Tracker

  datatype Command = Command(vx: real, vy: real, vz: real)

  const ZERO := Command(0.0, 0.0, 0.0)
  const MAX_LOST := 60
  const REFERENCE_AREA: real := 102400.0  // 320 by 320

  datatype Config = Config(
    targetDistance: real, targetWidthRatio: real, targetHeightRatio: real,
    kpLinear: real, kpAngular: real, maxLinear: real, maxBackward: real,
    allowBackward: bool, maxAngular: real, deadZoneX: real, deadZoneArea: real)

  function Abs(x: real): real { if x >= 0.0 then x else -x }

  function TargetArea(c: Config): real {
    var scale := 1.0 / MaxReal(c.targetDistance, 0.2);
    MinReal(REFERENCE_AREA * 0.85, 320.0 * c.targetWidthRatio * 320.0 * c.targetHeightRatio * (scale * scale))
  }

  // The command for a visible target in a frame of the given size.
  function Following(c: Config, box: Box, width: nat, height: nat): Command {
    var errorX := Beyond(NormX((box.x1 + box.x2) / 2, width), c.deadZoneX);
    var errorArea := Beyond(TooSmall(c, box, width, height), c.deadZoneArea);
    Steer(c, Times(errorX, c.kpAngular), Times(errorArea, c.kpLinear), Abs(errorX))
  }

  function Times(error: real, gain: real): real { error * gain }

  // The command that turns at vz and approaches at vx a target that far off centre.
  function Steer(c: Config, vz: real, vx: real, off: real): Command {
    Command(Clamp(Approach(vx, off), if c.allowBackward then -c.maxBackward else 0.0, c.maxLinear), 0.0,
            Clamp(vz, -c.maxAngular, c.maxAngular))
  }

  // Nothing inside the dead zone.
  function Beyond(x: real, zone: real): (r: real)
    ensures -zone < x < zone ==> r == 0.0
    ensures x <= -zone || x >= zone ==> r == x
  {
    if Abs(x) < zone then 0.0 else x
  }

  // No approach before the target is straight enough ahead.
  function Approach(vx: real, off: real): real {
    if vx > 0.0 then vx * Clamp(1.0 - off / 0.5, 0.0, 1.0) else vx
  }

  function Searching(c: Config): Command { Command(0.0, 0.0, c.maxAngular * 0.5) }

  function Smooth(current: Command, target: Command): Command {
    Command(0.3 * target.vx + 0.7 * current.vx,
            0.3 * target.vy + 0.7 * current.vy,
            0.3 * target.vz + 0.7 * current.vz)
  }

  predicate Bounded(c: Config, m: Command) {
    && (if c.allowBackward then -c.maxBackward else 0.0) <= m.vx <= c.maxLinear
    && m.vy == 0.0
    && -c.maxAngular <= m.vz <= c.maxAngular
  }

  predicate Nonnegative(c: Config) { c.maxLinear >= 0.0 && c.maxBackward >= 0.0 && c.maxAngular >= 0.0 }

  lemma FollowingIsBounded(c: Config, box: Box, width: nat, height: nat)
    requires Nonnegative(c)
    ensures Bounded(c, Following(c, box, width, height))
  {
  }

  function NormX(cx: int, width: nat): real { (cx as real / MaxReal(1.0, width as real) - 0.5) * 2.0 }

  lemma NormXSign(cx: int, width: nat)
    requires width >= 1
    ensures NormX(cx, width) >= 0.0 <==> 2 * cx >= width
    ensures NormX(cx, width) <= 0.0 <==> 2 * cx <= width
    ensures NormX(cx, width) >= 0.5 <==> 4 * cx >= 3 * width
    ensures NormX(cx, width) <= -0.5 <==> 4 * cx <= width
  {
    var w := width as real;
    var ratio := cx as real / w;
    assert ratio * w == cx as real;
    var x := NormX(cx, width);
    assert x * w == 2.0 * cx as real - w;
    SignOfProduct(x, w);
    SignOfProduct(x - 0.5, w);
    SignOfProduct(x + 0.5, w);
  }

  // A target right of the centre never turns the base left, nor the other way round,
  // and a target more than a quarter of the frame off centre is never approached.
  lemma TurnsTowardsTarget(c: Config, box: Box, width: nat, height: nat)
    requires Nonnegative(c) && c.kpAngular >= 0.0 && c.deadZoneX <= 0.5 && width >= 1
    ensures var m, cx := Following(c, box, width, height), (box.x1 + box.x2) / 2;
      && (2 * cx >= width ==> m.vz >= 0.0)
      && (2 * cx <= width ==> m.vz <= 0.0)
      && (4 * cx >= 3 * width || 4 * cx <= width ==> m.vx <= 0.0)
  {
    var cx := (box.x1 + box.x2) / 2;
    NormXSign(cx, width);
    TurnsBy(c, Beyond(NormX(cx, width), c.deadZoneX),
            Times(Beyond(TooSmall(c, box, width, height), c.deadZoneArea), c.kpLinear));
  }

  lemma TurnsBy(c: Config, x: real, vx: real)
    requires Nonnegative(c) && c.kpAngular >= 0.0
    ensures var m := Steer(c, Times(x, c.kpAngular), vx, Abs(x));
      && (x >= 0.0 ==> m.vz >= 0.0) && (x <= 0.0 ==> m.vz <= 0.0)
      && (x >= 0.5 || x <= -0.5 ==> m.vx <= 0.0)
  {
    SignOfScaled(x, c.kpAngular);
    var _ := SteerIs(c, Times(x, c.kpAngular), vx, Abs(x));
  }

  // How far the target is to the right of the centre, in half frame widths.
  function Offset(box: Box, width: nat): real
    requires width >= 1
  {
    (2 * ((box.x1 + box.x2) / 2) - width) as real / width as real
  }

  lemma OffsetIs(box: Box, width: nat)
    requires width >= 1
    ensures NormX((box.x1 + box.x2) / 2, width) == Offset(box, width)
  {
    var cx, w := (box.x1 + box.x2) / 2, width as real;
    assert cx as real / w * w == cx as real;
    Quotient(NormX(cx, width), (2 * cx - width) as real, w);
  }

  lemma Quotient(x: real, n: real, w: real)
    requires w != 0.0 && x * w == n
    ensures x == n / w
  {
  }

  // A visible target turns the base in proportion to its offset and moves it in
  // proportion to how much too small it looks, neither inside its dead zone.
  lemma FollowingSteers(c: Config, box: Box, width: nat, height: nat) returns (vz: real, vx: real)
    requires width >= 1
    ensures var x, e := Beyond(Offset(box, width), c.deadZoneX), Beyond(TooSmall(c, box, width, height), c.deadZoneArea);
      && vz == x * c.kpAngular && vx == e * c.kpLinear
      && Following(c, box, width, height) == Steer(c, vz, vx, Abs(x))
  {
    OffsetIs(box, width);
    vz := Times(Beyond(Offset(box, width), c.deadZoneX), c.kpAngular);
    vx := Times(Beyond(TooSmall(c, box, width, height), c.deadZoneArea), c.kpLinear);
  }

  // The share of the frame a box covers, scaled to the reference frame.
  function NormArea(box: Box, width: nat, height: nat): real {
    Area(box) as real / MaxReal(1.0, (width * height) as real) * REFERENCE_AREA
  }

  // A target that looks larger than wanted is never approached, one that looks smaller
  // is never backed away from.
  lemma KeepsDistance(c: Config, box: Box, width: nat, height: nat)
    requires Nonnegative(c) && c.kpLinear >= 0.0
    ensures NormArea(box, width, height) >= TargetArea(c) ==> Following(c, box, width, height).vx <= 0.0
    ensures NormArea(box, width, height) <= TargetArea(c) ==> Following(c, box, width, height).vx >= 0.0
  {
    var cx := (box.x1 + box.x2) / 2;
    var d := MaxReal(TargetArea(c), 1.0);
    var raw := (TargetArea(c) - NormArea(box, width, height)) / d;
    assert raw * d == TargetArea(c) - NormArea(box, width, height);
    SignOfProduct(raw, d);
    var errorArea := Beyond(raw, c.deadZoneArea);
    SignOfScaled(errorArea, c.kpLinear);
    var x := NormX(cx, width);
    var errorX := Beyond(x, c.deadZoneX);
    SignOfScaled(errorArea * c.kpLinear, Clamp(1.0 - Abs(errorX) / 0.5, 0.0, 1.0));
  }

  // How much smaller the target looks than wanted, as a share of what is wanted.
  function TooSmall(c: Config, box: Box, width: nat, height: nat): real {
    (TargetArea(c) - NormArea(box, width, height)) / MaxReal(TargetArea(c), 1.0)
  }

  // The speed w of an approach at v to a target that far off centre.
  predicate Slowed(v: real, off: real, w: real) {
    && (v <= 0.0 ==> w == v)
    && (v > 0.0 && off >= 0.5 ==> w == 0.0)
    && (v > 0.0 && off < 0.5 ==> w == v * (1.0 - off / 0.5))
  }

  // Every command stays within its limits and never goes sideways; an approach is slower
  // the more the target is off centre, and backing away is held back by nothing else.
  lemma SteerIs(c: Config, vz: real, vx: real, off: real) returns (w: real)
    requires Nonnegative(c) && off >= 0.0
    ensures Slowed(vx, off, w)
    ensures Limited(w, if c.allowBackward then -c.maxBackward else 0.0, c.maxLinear, Steer(c, vz, vx, off).vx)
    ensures Limited(vz, -c.maxAngular, c.maxAngular, Steer(c, vz, vx, off).vz) && Steer(c, vz, vx, off).vy == 0.0
  {
    w := Approach(vx, off);
    ApproachSlows(vx, off);
  }

  lemma ApproachSlows(v: real, off: real)
    requires off >= 0.0
    ensures Slowed(v, off, Approach(v, off))
  {
    var k := Clamp(1.0 - off / 0.5, 0.0, 1.0);
    assert k == if off >= 0.5 then 0.0 else 1.0 - off / 0.5;
    if v > 0.0 { assert v * 0.0 == 0.0; }
  }

  // The share of the frame that a box covers, and the share wanted, which falls with the
  // square of the distance and is never more than eighty-five percent.
  lemma SharesAre(c: Config, box: Box, width: nat, height: nat)
    requires width >= 1 && height >= 1
    ensures NormArea(box, width, height) * (width * height) as real == Area(box) as real * 102400.0
    ensures var d := if c.targetDistance >= 0.2 then c.targetDistance else 0.2;
      var wanted := 102400.0 * (c.targetWidthRatio * c.targetHeightRatio);
      TargetArea(c) * (d * d) == (if wanted <= 87040.0 * (d * d) then wanted else 87040.0 * (d * d))
  {
    ShareOfFrame(Area(box) as real, (width * height) as real);
    var d := if c.targetDistance >= 0.2 then c.targetDistance else 0.2;
    InverseSquare(102400.0 * (c.targetWidthRatio * c.targetHeightRatio), d);
    assert 320.0 * c.targetWidthRatio * 320.0 * c.targetHeightRatio
        == 102400.0 * (c.targetWidthRatio * c.targetHeightRatio);
  }

  lemma ShareOfFrame(area: real, frame: real)
    requires frame >= 1.0
    ensures area / MaxReal(1.0, frame) * 102400.0 * frame == area * 102400.0
  {
    assert area / frame * frame == area;
  }

  lemma InverseSquare(wanted: real, d: real)
    requires d > 0.0
    ensures var scale := 1.0 / d;
      MinReal(REFERENCE_AREA * 0.85, wanted * (scale * scale)) * (d * d)
        == if wanted <= 87040.0 * (d * d) then wanted else 87040.0 * (d * d)
  {
    var scale := 1.0 / d;
    assert scale * d == 1.0;
    assert (scale * scale) * (d * d) == (scale * d) * (scale * d) == 1.0;
    var x := wanted * (scale * scale);
    assert x * (d * d) == wanted * ((scale * scale) * (d * d)) == wanted;
    Ordered(87040.0, x, d * d);
  }

  lemma Ordered(a: real, b: real, k: real)
    requires k > 0.0
    ensures a <= b <==> a * k <= b * k
  {
  }

  lemma SignOfProduct(x: real, w: real)
    requires w > 0.0
    ensures x * w >= 0.0 <==> x >= 0.0
    ensures x * w <= 0.0 <==> x <= 0.0
  {
  }

  lemma SignOfScaled(x: real, k: real)
    requires k >= 0.0
    ensures x >= 0.0 ==> x * k >= 0.0
    ensures x <= 0.0 ==> x * k <= 0.0
  {
  }

  class FollowController {
    const cfg: Config
    var lost: nat  // consecutive frames without a target

    constructor (cfg: Config)
      ensures this.cfg == cfg && lost == 0
    {
      this.cfg, lost := cfg, 0;
    }

    method ComputeVelocity(target: Option<View>, width: nat, height: nat) returns (r: Option<Command>)
      modifies this
      ensures target.None? ==> lost == old(lost) + 1
                                  && r == if lost > MAX_LOST then Some(ZERO) else None
      ensures target.Some? ==> lost == 0 && r == Some(Following(cfg, target.value.bbox, width, height))
    {
      match target {
        case None =>
          lost := lost + 1;
          if lost > MAX_LOST { return Some(ZERO); }
          return None;
        case Some(view) =>
          lost := 0;
          return Some(Following(cfg, view.bbox, width, height));
      }
    }

    predicate IsTargetLost() reads this { lost > MAX_LOST }

    predicate IsSearching() reads this { 0 < lost <= MAX_LOST }
  }

  // ---------------------------------------------------------------- the run

  // What one pass of the loop meets: the stop flag, the clock, and what the camera
  // and detector give.  `raises` is an exception after the command went out.
  datatype Tick = Tick(stopped: bool, now: real, input: Input)
  datatype Input = NoFrame | Raised | Frame(id: int, width: nat, height: nat, people: seq<Detection>, raises: bool)

  datatype Outcome = Stopped | Completed | PersonLost | InternalError | Running

  // One processed frame and the command sent for it.
  datatype Applied = Applied(frame: int, people: seq<Detection>, target: Option<View>,
                             width: nat, height: nat, command: Command)

  function Wanted(c: Config, a: Applied): Command {
    match a.target
    case Some(view) => Following(c, view.bbox, a.width, a.height)
    case None => Searching(c)
  }

  // Every command is in bounds and smooths its predecessor towards what the frame asks for.
  ghost predicate Sound(c: Config, log: seq<Applied>) {
    forall k :: 0 <= k < |log| ==> Chained(c, log, k)
  }

  predicate Chained(c: Config, log: seq<Applied>, k: nat)
    requires k < |log|
  {
    && Bounded(c, log[k].command)
    && log[k].command == Smooth(if k == 0 then ZERO else log[k - 1].command, Wanted(c, log[k]))
    && (k > 0 ==> log[k].frame != log[k - 1].frame)
  }

  // A command keeps seven tenths of its distance from what its frame asks for: without a
  // target, to turn on the spot at half the angular limit.
  lemma StepTowards(c: Config, log: seq<Applied>, k: nat)
    requires Sound(c, log) && k < |log|
    ensures var from, to := if k == 0 then ZERO else log[k - 1].command, log[k].command;
      match log[k].target
      case Some(view) =>
        var wanted := Following(c, view.bbox, log[k].width, log[k].height);
        to.vx - wanted.vx == 0.7 * (from.vx - wanted.vx) && to.vz - wanted.vz == 0.7 * (from.vz - wanted.vz)
      case None => to.vx == 0.7 * from.vx && to.vz - c.maxAngular / 2.0 == 0.7 * (from.vz - c.maxAngular / 2.0)
  {
    assert Chained(c, log, k);
  }

  function Power(x: real, n: nat): real { if n == 0 then 1.0 else x * Power(x, n - 1) }

  // After n frames without a target the base has all but stopped, and its turn is as near
  // to half the angular limit, both by the same factor.
  lemma {:induction false} SearchDecays(c: Config, log: seq<Applied>, n: nat)
    requires Sound(c, log) && n < |log| && n <= Misses(log)
    ensures var from, to, p := log[|log| - 1 - n].command, log[|log| - 1].command, Power(0.7, n);
      to.vx == p * from.vx && to.vz - c.maxAngular / 2.0 == p * (from.vz - c.maxAngular / 2.0)
  {
    if n > 0 {
      var front := log[..|log| - 1];
      forall k | 0 <= k < |front| ensures Chained(c, front, k) { assert Chained(c, log, k); }
      SearchDecays(c, front, n - 1);
      StepTowards(c, log, |log| - 1);
      var p, from := Power(0.7, n - 1), log[|log| - 1 - n].command;
      assert 0.7 * (p * from.vx) == Power(0.7, n) * from.vx;
      assert 0.7 * (p * (from.vz - c.maxAngular / 2.0)) == Power(0.7, n) * (from.vz - c.maxAngular / 2.0);
    }
  }

  // How many frames at the end of the log had no target.
  function Misses(log: seq<Applied>): nat {
    if log == [] || log[|log| - 1].target.Some? then 0 else 1 + Misses(log[..|log| - 1])
  }

  lemma {:induction false} MissesBack(log: seq<Applied>, k: nat)
    requires k < Misses(log)
    ensures k < |log| && log[|log| - 1 - k].target.None?
  {
    if k > 0 { MissesBack(log[..|log| - 1], k - 1); }
  }

  ghost predicate NeverTooLong(log: seq<Applied>) {
    forall n :: 0 <= n <= |log| ==> Misses(log[..n]) <= MAX_LOST
  }

  // The state of a run that goes on after sending the commands of `log`.
  ghost predicate Going(c: Config, log: seq<Applied>, lost: nat, maxAge: int) {
    && Sound(c, log) && NeverTooLong(log) && Misses(log) == lost <= MAX_LOST
    && (maxAge >= 1 ==> SeenWhenThere(log))
  }

  // Exactly the frames without people had no target.
  ghost predicate SeenWhenThere(log: seq<Applied>) {
    forall k :: 0 <= k < |log| ==> (log[k].target.None? <==> log[k].people == [])
  }

  lemma SeenSnoc(log: seq<Applied>, a: Applied, maxAge: int)
    requires maxAge >= 1 ==> SeenWhenThere(log) && (a.target.None? <==> a.people == [])
    ensures maxAge >= 1 ==> SeenWhenThere(log + [a])
  {
  }

  lemma Longer(log: seq<Applied>, a: Applied)
    ensures log <= log + [a] && |log + [a]| == |log| + 1 && log + [a] != log && (log + [a])[|log|] == a
  {
  }

  lemma {:induction false} MissesOfRun(log: seq<Applied>, k: nat)
    requires k <= |log| && forall i :: |log| - k <= i < |log| ==> log[i].target.None?
    ensures Misses(log) >= k
  {
    if k > 0 { MissesOfRun(log[..|log| - 1], k - 1); }
  }

  // Among any 61 consecutive commands at least one was sent for a visible target.
  lemma AtMostSixtyInARow(log: seq<Applied>, from: nat)
    requires NeverTooLong(log) && from + 61 <= |log|
    ensures exists k :: from <= k <= from + 60 && log[k].target.Some?
  {
    if forall k :: from <= k <= from + 60 ==> log[k].target.None? {
      MissesOfRun(log[..from + 61], 61);
    }
  }

  function Deadline(start: real, duration: Option<real>): Option<real> {
    match duration
    case Some(d) => if d != 0.0 then Some(start + d) else None
    case None => None
  }

  // The frames that are not the one before them again, with the people in them.
  function NewFrames(ticks: seq<Tick>): seq<(int, seq<Detection>)> {
    if ticks == [] then []
    else
      var before, input := NewFrames(ticks[..|ticks| - 1]), ticks[|ticks| - 1].input;
      if input.Frame? && (before == [] || before[|before| - 1].0 != input.id) then before + [(input.id, input.people)]
      else before
  }

  // The frames for which a command was sent.
  function FramesOf(log: seq<Applied>): (r: seq<(int, seq<Detection>)>)
    ensures |r| == |log| && forall k :: 0 <= k < |log| ==> r[k] == (log[k].frame, log[k].people)
  {
    seq(|log|, k requires 0 <= k < |log| => (log[k].frame, log[k].people))
  }

  lemma FramesSnoc(log: seq<Applied>, a: Applied)
    ensures FramesOf(log + [a]) == FramesOf(log) + [(a.frame, a.people)]
  {
  }

  // The time allowed is over: the duration given, where zero allows any time, or two
  // minutes where neither a duration nor a number of steps is given.
  predicate TimeUp(start: real, durationSec: Option<real>, maxSteps: int, now: real) {
    match durationSec
    case Some(d) => d != 0.0 && now >= start + d
    case None => maxSteps <= 0 && now >= start + 120.0
  }

  // The loop goes on to the next pass at this one's start.
  predicate GoesOn(tick: Tick, timeUp: bool, maxSteps: int, sent: nat) {
    !tick.stopped && !timeUp && (maxSteps <= 0 || sent < maxSteps)
  }

  // The last command was sent for a visible target and hardly moves the base.
  predicate Settled(log: seq<Applied>) {
    log != [] && log[|log| - 1].target.Some?
    && -0.02 < log[|log| - 1].command.vx < 0.02 && -0.02 < log[|log| - 1].command.vz < 0.02
  }

  // How a pass ends a run, given the commands sent before it and with it.
  predicate EndsBy(tick: Tick, timeUp: bool, early: bool, maxSteps: int, before: seq<Applied>, log: seq<Applied>,
                   outcome: Outcome)
  {
    if tick.stopped then outcome == Stopped && log == before
    else if !GoesOn(tick, timeUp, maxSteps, |before|) then outcome == Completed && log == before
    else if tick.input.Raised? then outcome == InternalError && log == before
    else
      && tick.input.Frame?
      && if log == before then outcome == PersonLost
         else |log| == |before| + 1 && log[|before|].frame == tick.input.id && log[|before|].people == tick.input.people
              && if tick.input.raises then outcome == InternalError else early && Settled(log) && outcome == Stopped
  }

  // No pass met a stop, the end of the time, or an exception.
  predicate Undisturbed(ticks: seq<Tick>, start: real, durationSec: Option<real>, maxSteps: int) {
    forall k :: 0 <= k < |ticks| ==>
      !ticks[k].stopped && !TimeUp(start, durationSec, maxSteps, ticks[k].now) && !ticks[k].input.Raised?
  }

  lemma UndisturbedSnoc(ticks: seq<Tick>, n: nat, start: real, durationSec: Option<real>, maxSteps: int)
    requires n < |ticks|
    ensures Undisturbed(ticks[..n + 1], start, durationSec, maxSteps) <==>
      && Undisturbed(ticks[..n], start, durationSec, maxSteps)
      && !ticks[n].stopped && !TimeUp(start, durationSec, maxSteps, ticks[n].now) && !ticks[n].input.Raised?
  {
    assert ticks[..n + 1] == ticks[..n] + [ticks[n]];
  }

  // Pass n ended the run, after a command for each new frame before it.
  ghost predicate EndedAt(ticks: seq<Tick>, n: nat, start: real, durationSec: Option<real>, maxSteps: int,
                          log: seq<Applied>, outcome: Outcome)
    requires n < |ticks|
  {
    exists before ::
      && before <= log && FramesOf(before) == NewFrames(ticks[..n])
      && EndsBy(ticks[n], TimeUp(start, durationSec, maxSteps, ticks[n].now), durationSec.Some? || maxSteps <= 0,
                maxSteps, before, log, outcome)
  }

  class HumanFollowRunner {
    const tracker: Tracker.TargetTracker
    const controller: FollowController

    constructor (tracker: Tracker.TargetTracker, controller: FollowController)
      ensures this.tracker == tracker && this.controller == controller
    {
      this.tracker, this.controller := tracker, controller;
    }

    // The primary target as a value.
    function PrimaryView(): Option<View>
      reads tracker, if tracker.primary == null then {} else {tracker.primary}
    {
      if tracker.primary == null then None else Some(tracker.primary.View())
    }

    // Tracks the people of one frame and returns the primary target as a value.
    method Track(people: seq<Detection>) returns (target: Option<View>)
      requires tracker.Valid()
      modifies tracker, tracker.Owned(), tracker.ids
      ensures tracker.Valid()
      ensures fresh(tracker.Owned() - old(tracker.Owned()))
      ensures tracker.maxAge >= 1 ==> (target.None? <==> people == [])
      ensures target == PrimaryView()
      ensures target.Some? ==> target.value.missed == 0
    {
      ghost var before, owned := tracker.targets, tracker.Owned();
      forall t: Tracker.Target | t in before ensures t as object in owned {
        var j :| 0 <= j < |before| && before[j] == t;
      }
      var best, _ := tracker.Update(people);
      ghost var now := tracker.targets;
      forall o | o in tracker.Owned() && o !in owned ensures fresh(o) {
        var i :| 0 <= i < |now| && now[i] == o;
        assert now[i] in now;
      }
      if best == null { return None; }
      return Some(best.View());
    }

    // One new frame: track, steer, smooth and send, or find that the person is lost.
    method Process(f: Input, log: seq<Applied>) returns (lost: bool, sent: Applied)
      requires tracker.Valid() && f.Frame? && Nonnegative(controller.cfg)
      requires Going(controller.cfg, log, controller.lost, tracker.maxAge)
      requires log != [] ==> f.id != log[|log| - 1].frame
      modifies controller, tracker, tracker.Owned(), tracker.ids
      ensures tracker.Valid()
      ensures fresh(tracker.Owned() - old(tracker.Owned()))
      ensures lost ==> Misses(log) == MAX_LOST && controller.lost == MAX_LOST + 1
      ensures !lost ==> sent.frame == f.id && sent.people == f.people && sent.width == f.width && sent.height == f.height
      ensures !lost ==> sent.target == PrimaryView()
      ensures !lost ==> Going(controller.cfg, log + [sent], controller.lost, tracker.maxAge)
    {
      var current := if log == [] then ZERO else log[|log| - 1].command;
      var target := Track(f.people);
      var wanted := controller.ComputeVelocity(target, f.width, f.height);
      sent := Applied(f.id, f.people, target, f.width, f.height, ZERO);
      if controller.IsTargetLost() { return true, sent; }
      if wanted.None? {
        assert controller.IsSearching();
        wanted := Some(Searching(controller.cfg));
      }
      sent := sent.(command := Smooth(current, wanted.value));
      SendKeeps(controller.cfg, log, sent);
      SeenSnoc(log, sent, tracker.maxAge);
      return false, sent;
    }

    // One pass of the loop; an outcome ends the run.
    method Pass(tick: Tick, deadline: Option<real>, early: bool, maxSteps: int, log: seq<Applied>, last: Option<int>)
      returns (outcome: Option<Outcome>, log': seq<Applied>, last': Option<int>)
      requires tracker.Valid() && Nonnegative(controller.cfg)
      requires Going(controller.cfg, log, controller.lost, tracker.maxAge)
      requires log != [] ==> last == Some(log[|log| - 1].frame)
      requires log == [] ==> last == None
      modifies controller, tracker, tracker.Owned(), tracker.ids
      ensures tracker.Valid() && fresh(tracker.Owned() - old(tracker.Owned()))
      ensures outcome == Some(PersonLost) ==> log' == log && controller.lost == MAX_LOST + 1 && Misses(log) == MAX_LOST
      ensures outcome != Some(PersonLost) ==> Going(controller.cfg, log', controller.lost, tracker.maxAge)
      ensures outcome == None ==> last' == (if log' == [] then None else Some(log'[|log'| - 1].frame))
      ensures maxSteps > 0 && |log| <= maxSteps ==> |log'| <= maxSteps
      ensures log <= log' && |log'| <= |log| + 1
      ensures outcome.Some? ==>
        EndsBy(tick, deadline.Some? && tick.now >= deadline.value, early, maxSteps, log, log', outcome.value)
      ensures outcome == None ==>
        && GoesOn(tick, deadline.Some? && tick.now >= deadline.value, maxSteps, |log|) && !tick.input.Raised?
        && (log' == log <==> tick.input.NoFrame? || last == Some(tick.input.id))
        && (log' != log ==> !tick.input.raises && !(early && Settled(log')))
      ensures log' != log ==> tick.input.Frame? && last != Some(tick.input.id)
                              && log'[|log|].frame == tick.input.id && log'[|log|].people == tick.input.people
    {
      log', last' := log, last;
      if tick.stopped { return Some(Stopped), log, last; }
      if deadline.Some? && tick.now >= deadline.value { return Some(Completed), log, last; }
      if maxSteps > 0 && |log| >= maxSteps { return Some(Completed), log, last; }
      if tick.input.Raised? { return Some(InternalError), log, last; }
      outcome := None;
      if tick.input.Frame? && last != Some(tick.input.id) {
        last' := Some(tick.input.id);
        outcome, log' := Advance(tick.input, early, log);
      }
    }

    // A new frame: its command is sent and logged, unless the person is lost, and the run
    // ends where an exception follows or the base has settled and may stop early.
    method Advance(f: Input, early: bool, log: seq<Applied>) returns (outcome: Option<Outcome>, log': seq<Applied>)
      requires tracker.Valid() && f.Frame? && Nonnegative(controller.cfg)
      requires Going(controller.cfg, log, controller.lost, tracker.maxAge)
      requires log != [] ==> f.id != log[|log| - 1].frame
      modifies controller, tracker, tracker.Owned(), tracker.ids
      ensures tracker.Valid() && fresh(tracker.Owned() - old(tracker.Owned()))
      ensures outcome == Some(PersonLost) ==> log' == log && controller.lost == MAX_LOST + 1 && Misses(log) == MAX_LOST
      ensures outcome != Some(PersonLost) ==>
        && Going(controller.cfg, log', controller.lost, tracker.maxAge)
        && log <= log' && |log'| == |log| + 1 && log'[|log|].frame == f.id && log'[|log|].people == f.people
        && outcome == (if f.raises then Some(InternalError) else if early && Settled(log') then Some(Stopped) else None)
    {
      var lost, sent := Process(f, log);
      if lost { return Some(PersonLost), log; }
      log' := log + [sent];
      Longer(log, sent);
      if f.raises { return Some(InternalError), log'; }
      if sent.target.Some? && Abs(sent.command.vx) < 0.02 && Abs(sent.command.vz) < 0.02 && early {
        return Some(Stopped), log';
      }
      return None, log';
    }

    // Runs over the given passes of the loop; `Running` means they ran out.  `used` counts
    // the passes that did not end the run; a command was sent for exactly the new frames
    // among them, and the next pass ended it.
    method Run(ticks: seq<Tick>, start: real, durationSec: Option<real>, maxSteps: int)
      returns (outcome: Outcome, log: seq<Applied>, ghost used: nat)
      requires tracker.Valid() && controller.lost == 0 && Nonnegative(controller.cfg)
      modifies controller, tracker, tracker.Owned(), tracker.ids
      ensures Sound(controller.cfg, log) && NeverTooLong(log)
      ensures maxSteps > 0 ==> |log| <= maxSteps
      ensures outcome == PersonLost <==> controller.lost == 61
      ensures outcome == PersonLost ==> Misses(log) == 60
      ensures outcome != PersonLost ==> Misses(log) == controller.lost
      ensures tracker.maxAge >= 1 ==> SeenWhenThere(log)
      ensures used <= |ticks| && (outcome == Running <==> used == |ticks|)
      ensures Undisturbed(ticks[..used], start, durationSec, maxSteps)
      ensures used == |ticks| ==> FramesOf(log) == NewFrames(ticks)
      ensures used < |ticks| ==> EndedAt(ticks, used, start, durationSec, maxSteps, log, outcome)
    {
      var duration := if durationSec.None? && maxSteps <= 0 then Some(120.0) else durationSec;
      var deadline := Deadline(start, duration);
      var last: Option<int> := None;
      log := [];
      for n := 0 to |ticks|
        invariant tracker.Valid() && fresh(tracker.Owned() - old(tracker.Owned()))
        invariant Going(controller.cfg, log, controller.lost, tracker.maxAge)
        invariant maxSteps > 0 ==> |log| <= maxSteps
        invariant last == if log == [] then None else Some(log[|log| - 1].frame)
        invariant FramesOf(log) == NewFrames(ticks[..n])
        invariant Undisturbed(ticks[..n], start, durationSec, maxSteps)
      {
        var ended: Option<Outcome>;
        ghost var before := log;
        ended, log, last := Pass(ticks[n], deadline, duration.Some?, maxSteps, log, last);
        NextFrames(ticks, n, before, log);
        UndisturbedSnoc(ticks, n, start, durationSec, maxSteps);
        if ended.Some? {
          assert EndedAt(ticks, n, start, durationSec, maxSteps, log, ended.value);
          return ended.value, log, n;
        }
      }
      assert ticks[..|ticks|] == ticks;
      return Running, log, |ticks|;
    }
  }

  // What one more pass adds to the new frames.
  lemma NextFrames(ticks: seq<Tick>, n: nat, before: seq<Applied>, log: seq<Applied>)
    requires n < |ticks| && FramesOf(before) == NewFrames(ticks[..n]) && before <= log && |log| <= |before| + 1
    requires log != before ==>
      && ticks[n].input.Frame? && (before == [] || before[|before| - 1].frame != ticks[n].input.id)
      && log[|before|].frame == ticks[n].input.id && log[|before|].people == ticks[n].input.people
    ensures log != before ==> FramesOf(log) == NewFrames(ticks[..n + 1])
    ensures log == before && (ticks[n].input.Frame? ==> before != [] && before[|before| - 1].frame == ticks[n].input.id) ==>
      FramesOf(log) == NewFrames(ticks[..n + 1])
  {
    assert ticks[..n + 1][..n] == ticks[..n];
    if log != before {
      assert log == before + [log[|before|]];
      FramesSnoc(before, log[|before|]);
    }
  }

  lemma MissesSnoc(log: seq<Applied>, a: Applied)
    ensures Misses(log + [a]) == if a.target.Some? then 0 else Misses(log) + 1
  {
    assert (log + [a])[..|log|] == log;
  }

  lemma NeverTooLongSnoc(log: seq<Applied>, a: Applied)
    requires NeverTooLong(log) && Misses(log + [a]) <= MAX_LOST
    ensures NeverTooLong(log + [a])
  {
    var all := log + [a];
    forall n | 0 <= n <= |all| ensures Misses(all[..n]) <= MAX_LOST {
      if n <= |log| { assert all[..n] == log[..n]; } else { assert all[..n] == all; }
    }
  }

  lemma SmoothIsBounded(c: Config, m: Command, n: Command)
    requires Nonnegative(c) && Bounded(c, m) && Bounded(c, n)
    ensures Bounded(c, Smooth(m, n))
  {
  }

  lemma SendKeeps(c: Config, log: seq<Applied>, a: Applied)
    requires Nonnegative(c) && Sound(c, log) && NeverTooLong(log)
    requires a.command == Smooth(if log == [] then ZERO else log[|log| - 1].command, Wanted(c, a))
    requires log != [] ==> a.frame != log[|log| - 1].frame
    requires a.target.None? ==> Misses(log) < MAX_LOST
    ensures Sound(c, log + [a]) && NeverTooLong(log + [a])
    ensures Misses(log + [a]) == if a.target.Some? then 0 else Misses(log) + 1
  {
    if a.target.Some? { FollowingIsBounded(c, a.target.value.bbox, a.width, a.height); }
    var previous := if log == [] then ZERO else log[|log| - 1].command;
    assert log != [] ==> Chained(c, log, |log| - 1);
    SmoothIsBounded(c, previous, Wanted(c, a));
    MissesSnoc(log, a);
    NeverTooLongSnoc(log, a);
    SoundSnoc(c, log, a);
  }

  lemma SoundSnoc(c: Config, log: seq<Applied>, a: Applied)
    requires Sound(c, log) && Bounded(c, a.command)
    requires a.command == Smooth(if log == [] then ZERO else log[|log| - 1].command, Wanted(c, a))
    requires log != [] ==> a.frame != log[|log| - 1].frame
    ensures Sound(c, log + [a])
  {
    var all := log + [a];
    forall k | 0 <= k < |all| ensures Chained(c, all, k) {
      if k < |log| { assert Chained(c, log, k) && all[k] == log[k]; }
    }
  }
}
