/** The three-wheel base: reported velocity, wheel registers and kinematics. */
module MobileBase {
  import opened Wrappers
  import opened Numbers
  import opened ServoBus

  datatype Velocity = Velocity(vx: real, vy: real, omega: real)

  const STILL := Velocity(0.0, 0.0, 0.0)

  // sqrt32 stands for the square root of three, halved.
  datatype Config = Config(
    enabled: bool, maxLinear: real, maxAngular: real, radius: real, defaultWheelSpeed: int, sqrt32: real)

  function ClampVelocity(c: Config, v: Velocity): Velocity {
    Velocity(Clamp(v.vx, -c.maxLinear, c.maxLinear),
             Clamp(v.vy, -c.maxLinear, c.maxLinear),
             Clamp(v.omega, -c.maxAngular, c.maxAngular))
  }

  // The wheel speeds of a body velocity: left front, right front, rear.
  function WheelSpeeds(c: Config, v: Velocity): (w: seq<real>)
    ensures |w| == 3
  {
    [-c.sqrt32 * v.vx - 0.5 * v.vy - c.radius * v.omega,
     c.sqrt32 * v.vx - 0.5 * v.vy - c.radius * v.omega,
     v.vy - c.radius * v.omega]
  }

  function ServoSpeed(c: Config, w: real): int {
    if c.maxLinear <= 0.0 then 0
    else ClampInt(Truncate(w / c.maxLinear * (c.defaultWheelSpeed as real)), -3250, 3250)
  }

  // ---------------------------------------------------------------- kinematics

  function BodyVelocity(c: Config, w: seq<real>): Velocity
    requires |w| == 3 && c.sqrt32 != 0.0 && c.radius != 0.0
  {
    Velocity((w[1] - w[0]) / (2.0 * c.sqrt32),
             (2.0 * w[2] - w[0] - w[1]) / 3.0,
             -(w[0] + w[1] + w[2]) / (3.0 * c.radius))
  }

  lemma DivMul(a: real, b: real)
    requires b != 0.0
    ensures a / b * b == a
  {
  }

  lemma MulDiv(a: real, b: real)
    requires b != 0.0
    ensures a * b / b == a
  {
    DivMul(a * b, b);
    var q := a * b / b;
    assert (q - a) * b == 0.0;
  }

  // The wheel speeds determine the velocity, and every triple of wheel speeds is reached.
  lemma KinematicsInverse(c: Config, v: Velocity, w: seq<real>)
    requires |w| == 3 && c.sqrt32 != 0.0 && c.radius != 0.0
    ensures BodyVelocity(c, WheelSpeeds(c, v)) == v
    ensures WheelSpeeds(c, BodyVelocity(c, w)) == w
  {
    BodyOfWheels(c, v);
    var u := BodyVelocity(c, w);
    DivMul(w[1] - w[0], 2.0 * c.sqrt32);
    DivMul(-(w[0] + w[1] + w[2]), 3.0 * c.radius);
    var x, y, z := c.sqrt32 * u.vx, u.vy, c.radius * u.omega;
    assert 2.0 * x == w[1] - w[0];
    assert 3.0 * z == -(w[0] + w[1] + w[2]);
    assert 3.0 * y == 2.0 * w[2] - w[0] - w[1];
    assert -c.sqrt32 * u.vx == -x;
    var back := WheelSpeeds(c, u);
    assert back[0] == w[0] && back[1] == w[1] && back[2] == w[2];
  }

  lemma BodyOfWheels(c: Config, v: Velocity)
    requires c.sqrt32 != 0.0 && c.radius != 0.0
    ensures BodyVelocity(c, WheelSpeeds(c, v)) == v
  {
    var w := WheelSpeeds(c, v);
    var x, z := c.sqrt32 * v.vx, c.radius * v.omega;
    assert -c.sqrt32 * v.vx == -x;
    assert w[1] - w[0] == 2.0 * x == v.vx * (2.0 * c.sqrt32);
    MulDiv(v.vx, 2.0 * c.sqrt32);
    assert -(w[0] + w[1] + w[2]) == 3.0 * z == v.omega * (3.0 * c.radius);
    MulDiv(v.omega, 3.0 * c.radius);
  }

  // With sqrt32 squared three quarters, wheel speeds measure the body velocity evenly in all directions.
  lemma WheelEnergy(c: Config, v: Velocity)
    requires c.sqrt32 * c.sqrt32 == 0.75
    ensures var w := WheelSpeeds(c, v);
      w[0] * w[0] + w[1] * w[1] + w[2] * w[2]
        == 1.5 * (v.vx * v.vx + v.vy * v.vy) + 3.0 * (c.radius * v.omega) * (c.radius * v.omega)
  {
    var x, y, z := c.sqrt32 * v.vx, v.vy, c.radius * v.omega;
    assert -c.sqrt32 * v.vx == -x;
    assert x * x == 0.75 * (v.vx * v.vx) by {
      assert x * x == (c.sqrt32 * c.sqrt32) * (v.vx * v.vx);
    }
    SquareSum(x, y, z);
  }

  lemma SquareSum(x: real, y: real, z: real)
    ensures (-x - 0.5 * y - z) * (-x - 0.5 * y - z) + (x - 0.5 * y - z) * (x - 0.5 * y - z) + (y - z) * (y - z)
         == 2.0 * (x * x) + 1.5 * (y * y) + 3.0 * z * z
  {
  }

  // Driving forward turns the two front wheels against each other and leaves the rear one;
  // going sideways turns the rear wheel at full speed and the front ones at half speed
  // against it; turning turns all three alike; and a mixed motion is the sum of those.
  lemma WheelsAre(c: Config, vx: real, vy: real, omega: real)
    ensures var forward, sideways, turn, w :=
        WheelSpeeds(c, Velocity(vx, 0.0, 0.0)), WheelSpeeds(c, Velocity(0.0, vy, 0.0)),
        WheelSpeeds(c, Velocity(0.0, 0.0, omega)), WheelSpeeds(c, Velocity(vx, vy, omega));
      && forward[0] == -forward[1] && forward[1] == c.sqrt32 * vx && forward[2] == 0.0
      && sideways[0] == sideways[1] == -(vy / 2.0) && sideways[2] == vy
      && turn[0] == turn[1] == turn[2] == -(c.radius * omega)
      && forall i :: 0 <= i < 3 ==> w[i] == forward[i] + sideways[i] + turn[i]
  {
    var x, z := c.sqrt32 * vx, c.radius * omega;
    assert -c.sqrt32 * vx == -x;
    Zeros(c);
  }

  lemma Zeros(c: Config)
    ensures -c.sqrt32 * 0.0 == 0.0 && c.sqrt32 * 0.0 == 0.0 && c.radius * 0.0 == 0.0
  {
  }

  // A wheel speed becomes its share of the default register value, cut towards zero and
  // limited to 3250 either way; without a linear limit it becomes zero.
  lemma ServoSpeedIs(c: Config, w: real)
    ensures c.maxLinear <= 0.0 ==> ServoSpeed(c, w) == 0
    ensures c.maxLinear > 0.0 ==>
      var x := w / c.maxLinear * c.defaultWheelSpeed as real;
      && (x >= 3250.0 ==> ServoSpeed(c, w) == 3250)
      && (x <= -3250.0 ==> ServoSpeed(c, w) == -3250)
      && (-3250.0 < x < 3250.0 ==> TowardsZero(x, ServoSpeed(c, w)))
  {
    if c.maxLinear > 0.0 { LimitedRegister(w / c.maxLinear * c.defaultWheelSpeed as real); }
  }

  lemma LimitedRegister(x: real)
    ensures x >= 3250.0 ==> ClampInt(Truncate(x), -3250, 3250) == 3250
    ensures x <= -3250.0 ==> ClampInt(Truncate(x), -3250, 3250) == -3250
    ensures -3250.0 < x < 3250.0 ==> TowardsZero(x, ClampInt(Truncate(x), -3250, 3250))
  {
  }

  // A velocity is limited component by component.
  lemma ClampedIs(c: Config, v: Velocity)
    requires c.maxLinear >= 0.0 && c.maxAngular >= 0.0
    ensures Limited(v.vx, -c.maxLinear, c.maxLinear, ClampVelocity(c, v).vx)
    ensures Limited(v.vy, -c.maxLinear, c.maxLinear, ClampVelocity(c, v).vy)
    ensures Limited(v.omega, -c.maxAngular, c.maxAngular, ClampVelocity(c, v).omega)
  {
  }

  // A still base has every wheel register at zero.
  lemma StillIsZero(c: Config, i: nat)
    requires i < 3
    ensures ServoSpeed(c, WheelSpeeds(c, STILL)[i]) == 0
  {
    assert WheelSpeeds(c, STILL)[i] == 0.0;
    if c.maxLinear > 0.0 {
      MulDiv(0.0, c.maxLinear);
      assert 0.0 / c.maxLinear * (c.defaultWheelSpeed as real) == 0.0;
    }
  }

  // ---------------------------------------------------------------- the component

  datatype Call = SetVelocity(v: Velocity, writes: nat -> Delivery, stops: nat -> Delivery)
                | Stop(stops: nat -> Delivery)

  class LeKiwiBase {
    const bus: Bus
    const cfg: Config
    const wheelIds: seq<int>
    var initialized: bool
    var velocity: Velocity

    predicate Valid() { |wheelIds| == 3 && wheelIds[0] != wheelIds[1] && wheelIds[1] != wheelIds[2] && wheelIds[0] != wheelIds[2] }

    // Every wheel register holds the image of the reported velocity.
    ghost predicate Consistent()
      requires Valid()
      reads this, bus
    {
      forall i :: 0 <= i < 3 ==>
        wheelIds[i] in bus.speeds && bus.speeds[wheelIds[i]] == ServoSpeed(cfg, WheelSpeeds(cfg, velocity)[i])
    }

    constructor (bus: Bus, cfg: Config, leftFront: int, rightFront: int, rear: int)
      requires leftFront != rightFront && rightFront != rear && leftFront != rear
      ensures Valid() && this.bus == bus && this.cfg == cfg && !initialized && velocity == STILL
      ensures wheelIds == [leftFront, rightFront, rear]
    {
      this.bus, this.cfg, wheelIds := bus, cfg, [leftFront, rightFront, rear];
      initialized, velocity := false, STILL;
    }

    function Zeros(): seq<(int, int)>
      requires Valid()
    {
      [(wheelIds[0], 0), (wheelIds[1], 0), (wheelIds[2], 0)]
    }

    // All three wheels are told to stop even when one of the writes fails.
    method StopBase(d: nat -> Delivery) returns (ok: bool)
      requires Valid()
      modifies this`velocity, bus`speeds, bus`attempts
      ensures velocity == STILL
      ensures bus.attempts == old(bus.attempts) + (if cfg.enabled then Zeros() else [])
      ensures cfg.enabled && ok ==> Consistent()
      ensures cfg.enabled ==> ok == (bus.connected && d(0).Confirmed? && d(1).Confirmed? && d(2).Confirmed?)
      ensures !cfg.enabled ==> ok && bus.speeds == old(bus.speeds)
    {
      velocity := STILL;
      if !cfg.enabled { return true; }
      ok := true;
      for i := 0 to 3
        invariant velocity == STILL && bus.attempts == old(bus.attempts) + Zeros()[..i]
        invariant ok == (i == 0 || (bus.connected && forall j :: 0 <= j < i ==> d(j).Confirmed?))
        invariant ok ==> forall j :: 0 <= j < i ==> wheelIds[j] in bus.speeds && bus.speeds[wheelIds[j]] == 0
      {
        var written := bus.WriteSpeed(wheelIds[i], 0, d(i));
        ok := ok && written;
        assert Zeros()[..i + 1] == Zeros()[..i] + [(wheelIds[i], 0)];
      }
      assert Zeros()[..3] == Zeros();
      StillIsZero(cfg, 0);
      StillIsZero(cfg, 1);
      StillIsZero(cfg, 2);
    }

    // The writes of a velocity, in wheel order.
    function Writes(v: Velocity): (r: seq<(int, int)>)
      requires Valid()
      ensures |r| == 3
      ensures forall i :: 0 <= i < 3 ==> r[i] == (wheelIds[i], ServoSpeed(cfg, WheelSpeeds(cfg, v)[i]))
    {
      seq(3, i requires 0 <= i < 3 => (wheelIds[i], ServoSpeed(cfg, WheelSpeeds(cfg, v)[i])))
    }

    // Success leaves the clamped velocity reported and in the wheels.  The first failed
    // write ends the call: nothing further is written but a zero to every wheel, and
    // the reported velocity is zero.
    method SetBaseVelocity(v: Velocity, d: nat -> Delivery, stops: nat -> Delivery) returns (ok: bool)
      requires Valid()
      modifies this`velocity, bus`speeds, bus`attempts
      ensures !cfg.enabled ==> ok && velocity == old(velocity) && bus.attempts == old(bus.attempts)
      ensures cfg.enabled && !initialized ==> !ok && velocity == old(velocity) && bus.attempts == old(bus.attempts)
      ensures cfg.enabled && initialized && ok ==>
        && velocity == ClampVelocity(cfg, v) && Consistent()
        && bus.attempts == old(bus.attempts) + Writes(velocity)
      ensures cfg.enabled && initialized && !ok ==>
        && velocity == STILL
        && exists k :: 0 <= k < 3 && !(bus.connected && d(k).Confirmed?)
             && bus.attempts == old(bus.attempts) + Writes(ClampVelocity(cfg, v))[..k + 1] + Zeros()
    {
      if !cfg.enabled { return true; }
      if !initialized { return false; }
      var target := ClampVelocity(cfg, v);
      var wheels := WheelSpeeds(cfg, target);
      for i := 0 to 3
        invariant velocity == old(velocity)
        invariant bus.attempts == old(bus.attempts) + Writes(target)[..i]
        invariant forall j :: 0 <= j < i ==>
          wheelIds[j] in bus.speeds && bus.speeds[wheelIds[j]] == ServoSpeed(cfg, wheels[j])
      {
        var speed := ServoSpeed(cfg, wheels[i]);
        var written := bus.WriteSpeed(wheelIds[i], speed, d(i));
        assert Writes(target)[..i + 1] == Writes(target)[..i] + [(wheelIds[i], speed)];
        if !written {
          var _ := StopBase(stops);
          return false;
        }
      }
      assert Writes(target)[..3] == Writes(target);
      velocity := target;
      return true;
    }

    // Any sequence of calls: when the last one reports success, the wheels agree with
    // the reported velocity.
    method Drive(calls: seq<Call>) returns (ok: bool)
      requires Valid()
      modifies this`velocity, bus`speeds, bus`attempts
      ensures cfg.enabled && calls != [] && ok ==> Consistent()
    {
      ok := true;
      for i := 0 to |calls|
        invariant cfg.enabled && i > 0 && ok ==> Consistent()
      {
        match calls[i] {
          case SetVelocity(v, writes, stops) => ok := SetBaseVelocity(v, writes, stops);
          case Stop(stops) => ok := StopBase(stops);
        }
      }
    }

    // Every wheel answers, then every wheel is in wheel mode, then zero velocity is
    // reported.  The answer does not depend on the final stop: the wheels are known to be
    // still only when all its writes were confirmed.
    method Initialize(answers: nat -> bool, modes: nat -> nat -> Delivery,
                      torque: nat -> Delivery, stops: nat -> Delivery) returns (ok: bool)
      requires Valid()
      modifies this, bus`speeds, bus`bytes, bus`attempts
      ensures ok && cfg.enabled ==> initialized && velocity == STILL
      ensures ok && cfg.enabled && stops(0).Confirmed? && stops(1).Confirmed? && stops(2).Confirmed? ==> Consistent()
      ensures ok && cfg.enabled ==> forall i :: 0 <= i < 3 ==> bus.InWheelMode(wheelIds[i])
      ensures !cfg.enabled ==> ok && initialized == old(initialized) && bus.bytes == old(bus.bytes)
      ensures !ok ==> initialized == old(initialized)
      ensures cfg.enabled ==>
        (ok <==> bus.connected && answers(0) && answers(1) && answers(2)
                 && ModeConfirmed(modes(0)) && ModeConfirmed(modes(1)) && ModeConfirmed(modes(2)))
    {
      if !cfg.enabled { return true; }
      if !bus.connected { return false; }
      if !(answers(0) && answers(1) && answers(2)) { return false; }
      var _ := bus.WriteByte(BROADCAST, TORQUE_ENABLE, 0, torque(0));
      for i := 0 to 3
        invariant initialized == old(initialized) && velocity == old(velocity)
        invariant forall j :: 0 <= j < i ==> bus.InWheelMode(wheelIds[j]) && ModeConfirmed(modes(j))
      {
        var wheelMode := bus.SetWheelMode(wheelIds[i], modes(i));
        if !wheelMode { return false; }
      }
      var _ := bus.WriteByte(BROADCAST, TORQUE_ENABLE, 1, torque(1));
      var _ := StopBase(stops);
      initialized := true;
      return true;
    }
  }
}
