/** The shared servo bus: what its writes leave in the servos' registers. */
module ServoBus {
  import opened Wrappers
  import opened Numbers
  import opened Lists
  import opened ServoWords
  import opened SyncRead
  import opened SyncWrite

  const BROADCAST := 0xFE
  const TORQUE_ENABLE := 40
  const LOCK := 55
  const MODE := 33
  const ANGLE_LIMITS: seq<int> := [9, 10, 11, 12]

  // One write on the wire: confirmed, never arrived, or arrived with its reply lost.
  datatype Delivery = Confirmed | Lost | Unconfirmed

  // The position itself, or the end of the servo's range that it is beyond.
  predicate PositionLimited(given: int, sent: int) {
    && (0 <= given <= 4095 ==> sent == given)
    && (given < 0 ==> sent == 0)
    && (given > 4095 ==> sent == 4095)
  }

  // One of three attempts has its unlocking, four limits and mode confirmed; writes 8a to
  // 8a + 7 belong to attempt a.
  ghost predicate ModeConfirmed(d: nat -> Delivery) {
    exists a: nat :: a < 3 && AttemptConfirmed(d, a)
  }

  ghost predicate AttemptConfirmed(d: nat -> Delivery, a: nat) {
    forall k :: 8 * a + 1 <= k <= 8 * a + 6 ==> d(k).Confirmed?
  }

  function ClampPositions(ts: seq<Entry>): (r: seq<Entry>)
    ensures |r| == |ts|
    ensures forall i :: 0 <= i < |ts| ==>
      && r[i].id == ts[i].id && r[i].target.speed == ts[i].target.speed && r[i].target.acc == ts[i].target.acc
      && PositionLimited(ts[i].target.position, r[i].target.position)
  {
    seq(|ts|, i requires 0 <= i < |ts| => ts[i].(target := ts[i].target.(position := ClampInt(ts[i].target.position, 0, 4095))))
  }

  class Bus {
    const group: GroupSyncWrite
    var connected: bool
    var speeds: map<int, int>              // speed register of each servo, as the servo reads it
    var bytes: map<(int, int), int>        // one-byte registers by servo and address
    ghost var attempts: seq<(int, int)>    // every speed write ever tried, delivered or not

    ghost predicate Valid()
      reads this, group
    {
      group.Valid() && group.dataLength == 7
    }

    constructor ()
      ensures Valid() && fresh(group) && !connected && speeds == map[] && bytes == map[] && attempts == []
    {
      group := new GroupSyncWrite(7);
      connected, speeds, bytes, attempts := false, map[], map[], [];
    }

    // The speed travels as two bytes in sign-magnitude form and arrives unchanged.
    method WriteSpeed(id: int, speed: int, d: Delivery) returns (ok: bool)
      modifies this`speeds, this`attempts
      ensures ok == (connected && d.Confirmed?)
      ensures speeds == if connected && !d.Lost? then old(speeds)[id := ClampInt(speed, -32767, 32767)] else old(speeds)
      ensures attempts == old(attempts) + [(id, speed)]
    {
      attempts := attempts + [(id, speed)];
      if !connected { return false; }
      var word := ToScs(ClampInt(speed, -32767, 32767));
      var low, high := LoByte(Little, word), HiByte(Little, word);
      if !d.Lost? {
        WordRoundTripIff(Little, ClampInt(speed, -32767, 32767));
        speeds := speeds[id := ToHost(MakeWord(Little, low, high))];
      }
      return d.Confirmed?;
    }

    method WriteByte(id: int, address: int, value: int, d: Delivery) returns (ok: bool)
      modifies this`bytes
      ensures ok == (connected && d.Confirmed?)
      ensures bytes == if connected && !d.Lost? then old(bytes)[(id, address) := value] else old(bytes)
    {
      if !connected { return false; }
      if !d.Lost? { bytes := bytes[(id, address) := value]; }
      return d.Confirmed?;
    }

    ghost predicate InWheelMode(id: int)
      reads this`bytes
    {
      && (id, 33) in bytes && bytes[(id, 33)] == 1
      && forall a :: 9 <= a <= 12 ==> (id, a) in bytes && bytes[(id, a)] == 0
    }

    ghost predicate OtherServosKept(id: int, before: map<(int, int), int>)
      reads this`bytes
    {
      forall k: (int, int) :: k.0 != id ==> (k in bytes <==> k in before) && (k in bytes ==> bytes[k] == before[k])
    }

    // Zeroes the four angle limits; stops at the first write that is not confirmed.
    method ClearLimits(id: int, d: nat -> Delivery, from: nat) returns (ok: bool)
      modifies this`bytes
      ensures OtherServosKept(id, old(bytes))
      ensures ok <==> connected && forall i :: from <= i < from + 4 ==> d(i).Confirmed?
      ensures ok ==> forall a :: a in ANGLE_LIMITS ==> (id, a) in bytes && bytes[(id, a)] == 0
    {
      for i := 0 to |ANGLE_LIMITS|
        invariant OtherServosKept(id, old(bytes))
        invariant i > 0 ==> connected && forall j :: from <= j < from + i ==> d(j).Confirmed?
        invariant forall j :: 0 <= j < i ==> (id, ANGLE_LIMITS[j]) in bytes && bytes[(id, ANGLE_LIMITS[j])] == 0
      {
        var written := WriteByte(id, ANGLE_LIMITS[i], 0, d(from + i));
        if !written { return false; }
      }
      return true;
    }

    // One attempt; success means the wheel mode and all limits were confirmed.
    method TryWheelMode(id: int, d: nat -> Delivery, attempt: nat) returns (ok: bool)
      modifies this`bytes
      ensures ok ==> InWheelMode(id)
      ensures ok <==> connected && AttemptConfirmed(d, attempt)
      ensures OtherServosKept(id, old(bytes))
    {
      var n := 8 * attempt;
      var _ := WriteByte(id, TORQUE_ENABLE, 0, d(n));
      var unlocked := WriteByte(id, LOCK, 0, d(n + 1));
      if !unlocked { return false; }
      var cleared := ClearLimits(id, d, n + 2);
      if !cleared { return false; }
      var wheel := WriteByte(id, MODE, 1, d(n + 6));
      if !wheel { return false; }
      var _ := WriteByte(id, LOCK, 1, d(n + 7));
      return true;
    }

    // The first of three attempts that succeeds ends the call.
    method SetWheelMode(id: int, d: nat -> Delivery) returns (ok: bool)
      modifies this`bytes
      ensures ok ==> InWheelMode(id)
      ensures ok <==> connected && ModeConfirmed(d)
      ensures OtherServosKept(id, old(bytes))
    {
      for attempt := 0 to 3
        invariant OtherServosKept(id, old(bytes))
        invariant forall a: nat :: a < attempt ==> !(connected && AttemptConfirmed(d, a))
      {
        var done := TryWheelMode(id, d, attempt);
        if done { return true; }
      }
      return false;
    }

    // Positions are clamped; the answer only says that the bus was connected.
    method SyncWritePositions(ts: seq<Entry>, tx: Comm) returns (ok: bool, sent: Option<seq<int>>)
      requires Valid() && Distinct(Ids(ts))
      modifies group
      ensures Valid() && ok == connected
      ensures sent == if connected && ts != [] then Some(Encode(ClampPositions(ts))) else None
      ensures sent.Some? ==> |sent.value| == 8 * |ts|
      ensures sent.Some? ==> (Received(sent.value) == Some(ClampPositions(ts)) <==> forall i :: 0 <= i < |ts| ==>
                0 <= ts[i].id < 256 && 0 <= ts[i].target.speed < 0x10000 && 0 <= ts[i].target.acc < 256)
    {
      if !connected { return false, None; }
      var normalized := ClampPositions(ts);
      assert Ids(normalized) == Ids(ts);
      var _, block := group.SyncWritePosEx(normalized, tx);
      SendableIff(normalized);
      ParseEncodeIff(normalized);
      return true, block;
    }
  }
}
