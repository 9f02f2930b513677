/** Bulk position writes: the table of packets and the parameter block made from it. */
module SyncWrite {
  import opened Wrappers
  import opened Lists
  import opened ServoWords
  import opened SyncRead

  datatype Target = Target(position: int, speed: int, acc: int)

  datatype Entry = Entry(id: int, target: Target)

  // acc, position, two zero bytes of time, speed
  function Packet(t: Target): (p: seq<int>)
    ensures |p| == 7
  {
    var p := ToScs(t.position);
    [t.acc, LoByte(Little, p), HiByte(Little, p), 0, 0, LoByte(Little, t.speed), HiByte(Little, t.speed)]
  }

  // The block of a table: every id followed by its packet, in order, up to the first
  // servo whose packet is empty.
  function Block(keys: seq<int>, data: map<int, seq<int>>): seq<int>
    requires forall i :: 0 <= i < |keys| ==> keys[i] in data
  {
    if keys == [] || data[keys[0]] == [] then [] else [keys[0]] + data[keys[0]] + Block(keys[1..], data)
  }

  function Encode(ts: seq<Entry>): seq<int> {
    if ts == [] then [] else [ts[0].id] + Packet(ts[0].target) + Encode(ts[1..])
  }

  // bytes(block): a block goes out only when every number in it is a byte.
  predicate Sendable(b: seq<int>) { forall i :: 0 <= i < |b| ==> 0 <= b[i] < 256 }

  // What the servos read out of a block, eight bytes each.
  function Parse(b: seq<byte>): seq<Entry> {
    if |b| < 8 then []
    else [EntryOf(b)] + Parse(b[8..])
  }

  function EntryOf(b: seq<int>): Entry
    requires |b| >= 8
  {
    Entry(b[0], Target(ToHost(MakeWord(Little, b[2], b[3])), MakeWord(Little, b[6], b[7]), b[1]))
  }

  // The servos that get a block, if it goes out at all.
  function Received(block: seq<int>): Option<seq<Entry>> {
    if Sendable(block) then Some(Parse(block)) else None
  }

  // Servo id and acceleration are one byte each; position and speed are words.
  predicate InRange(e: Entry) {
    && 0 <= e.id < 256 && 0 <= e.target.acc < 256
    && -32767 <= e.target.position <= 32767 && 0 <= e.target.speed < 0x10000
  }

  // A block has eight bytes per servo and goes out exactly when every id and
  // acceleration is a byte.
  lemma {:induction false} SendableIff(ts: seq<Entry>)
    ensures |Encode(ts)| == 8 * |ts|
    ensures Sendable(Encode(ts)) <==> forall i :: 0 <= i < |ts| ==> 0 <= ts[i].id < 256 && 0 <= ts[i].target.acc < 256
  {
    if ts != [] {
      SendableIff(ts[1..]);
      SendableFirst(ts[0], Encode(ts[1..]));
      assert forall i :: 1 <= i < |ts| ==> ts[i] == ts[1..][i - 1];
    }
  }

  // It is received as the targets exactly when they are all in range.
  lemma {:induction false} ParseEncodeIff(ts: seq<Entry>)
    ensures Received(Encode(ts)) == Some(ts) <==> forall i :: 0 <= i < |ts| ==> InRange(ts[i])
  {
    if ts != [] {
      var rest := Encode(ts[1..]);
      ParseEncodeIff(ts[1..]);
      SendableFirst(ts[0], rest);
      if Sendable(Encode(ts)) {
        ParseFirst(ts[0], rest);
        ConsEqual(EntryOf(Encode(ts)), Parse(rest), ts);
      }
      assert forall i :: 1 <= i < |ts| ==> ts[i] == ts[1..][i - 1];
    }
  }

  lemma SendableFirst(e: Entry, rest: seq<int>)
    ensures Sendable([e.id] + Packet(e.target) + rest)
       <==> 0 <= e.id < 256 && 0 <= e.target.acc < 256 && Sendable(rest)
  {
    var head := [e.id] + Packet(e.target);
    var b := head + rest;
    assert |head| == 8 && forall i :: 2 <= i < 8 ==> 0 <= head[i] < 256;
    assert b[0] == e.id && b[1] == e.target.acc;
    assert forall i :: 0 <= i < |rest| ==> b[i + 8] == rest[i];
    assert forall i :: 8 <= i < |b| ==> b[i] == rest[i - 8];
  }

  lemma ParseFirst(e: Entry, rest: seq<int>)
    requires Sendable([e.id] + Packet(e.target) + rest) && Sendable(rest)
    ensures var b := [e.id] + Packet(e.target) + rest;
      |b| >= 8 && Parse(b) == [EntryOf(b)] + Parse(rest) && (EntryOf(b) == e <==> InRange(e))
  {
    var head := [e.id] + Packet(e.target);
    var b := head + rest;
    assert b[8..] == rest;
    assert b[..8] == head;
    EntryOfPacket(e, b);
  }

  lemma EntryOfPacket(e: Entry, b: seq<int>)
    requires |b| >= 8 && b[..8] == [e.id] + Packet(e.target) && 0 <= b[0] < 256 && 0 <= b[1] < 256
    ensures EntryOf(b) == e <==> InRange(e)
  {
    PacketBytes(e, b);
    WordRoundTripIff(Little, e.target.position);
    SpeedBack(e.target.speed);
  }

  // The words of a packet, before they are taken apart, are what the servo puts together.
  lemma PacketBytes(e: Entry, b: seq<int>)
    requires |b| >= 8 && b[..8] == [e.id] + Packet(e.target)
    ensures var p := ToScs(e.target.position);
      EntryOf(b) == Entry(e.id, Target(ToHost(MakeWord(Little, LoByte(Little, p), HiByte(Little, p))),
                                       MakeWord(Little, LoByte(Little, e.target.speed), HiByte(Little, e.target.speed)),
                                       e.target.acc))
    ensures b[0] == e.id && b[1] == e.target.acc
  {
    var head, p := b[..8], ToScs(e.target.position);
    assert b[0] == head[0] == e.id && b[1] == head[1] == e.target.acc;
    assert b[2] == head[2] == LoByte(Little, p) && b[3] == head[3] == HiByte(Little, p);
    assert b[6] == head[6] == LoByte(Little, e.target.speed) && b[7] == head[7] == HiByte(Little, e.target.speed);
  }

  lemma SpeedBack(speed: int)
    ensures MakeWord(Little, LoByte(Little, speed), HiByte(Little, speed)) == speed <==> 0 <= speed < 0x10000
  {
    SplitJoin(Little, speed);
  }

  lemma ConsEqual<T>(x: T, xs: seq<T>, s: seq<T>)
    requires s != []
    ensures [x] + xs == s <==> x == s[0] && xs == s[1..]
  {
    assert s == [s[0]] + s[1..];
    assert ([x] + xs)[1..] == xs;
  }

  function Ids(ts: seq<Entry>): (r: seq<int>)
    ensures |r| == |ts| && forall i :: 0 <= i < |ts| ==> r[i] == ts[i].id
  {
    seq(|ts|, i requires 0 <= i < |ts| => ts[i].id)
  }

  lemma FreshId(ts: seq<Entry>, i: nat)
    requires i < |ts| && Distinct(Ids(ts))
    ensures ts[i].id !in Ids(ts[..i])
  {
    forall j | 0 <= j < i ensures Ids(ts[..i])[j] != ts[i].id {
      assert Ids(ts[..i])[j] == Ids(ts)[j] && ts[i].id == Ids(ts)[i];
    }
  }

  lemma {:induction false} BlockOfTargets(ts: seq<Entry>, data: map<int, seq<int>>)
    requires forall i :: 0 <= i < |ts| ==> ts[i].id in data && data[ts[i].id] == Packet(ts[i].target)
    requires forall i :: 0 <= i < |Ids(ts)| ==> Ids(ts)[i] in data
    ensures Block(Ids(ts), data) == Encode(ts)
  {
    if ts != [] {
      assert Ids(ts)[1..] == Ids(ts[1..]);
      BlockOfTargets(ts[1..], data);
    }
  }

  // The table holds the packet of every listed target, and no empty packet.
  ghost predicate Tabled(ts: seq<Entry>, data: map<int, seq<int>>) {
    && (forall i :: 0 <= i < |ts| ==> ts[i].id in data && data[ts[i].id] == Packet(ts[i].target))
    && (forall k :: k in data ==> data[k] != [])
  }

  lemma TabledSnoc(ts: seq<Entry>, e: Entry, data: map<int, seq<int>>)
    requires Tabled(ts, data) && e.id !in Ids(ts)
    ensures Tabled(ts + [e], data[e.id := Packet(e.target)])
  {
    forall i | 0 <= i < |ts| ensures ts[i].id != e.id { assert ts[i].id == Ids(ts)[i]; }
  }

  class GroupSyncWrite {
    const dataLength: nat
    var isParamChanged: bool
    var param: seq<int>
    var keys: seq<int>             // data_dict's keys in insertion order
    var data: map<int, seq<int>>   // data_dict

    // A table with entries always carries the flag that forces the block to be rebuilt.
    ghost predicate Valid()
      reads this
    {
      && Distinct(keys)
      && (forall i :: 0 <= i < |keys| ==> keys[i] in data)
      && (forall k :: k in data ==> k in keys)
      && (keys != [] ==> isParamChanged)
      && (forall k :: k in data ==> |data[k]| <= dataLength)
    }

    constructor (dataLength: nat)
      ensures Valid() && keys == [] && this.dataLength == dataLength
    {
      this.dataLength := dataLength;
      isParamChanged, param, keys, data := false, [], [], map[];
    }

    method ClearParam()
      modifies this`keys, this`data
      ensures Valid() && keys == [] && data == map[]
    {
      keys, data := [], map[];
    }

    method AddParam(id: int, packet: seq<int>) returns (added: bool)
      requires Valid()
      modifies this`keys, this`data, this`isParamChanged
      ensures Valid() && added == (id !in old(data) && |packet| <= dataLength)
      ensures data == if added then old(data)[id := packet] else old(data)
      ensures keys == if added then old(keys) + [id] else old(keys)
    {
      if id in data || |packet| > dataLength { return false; }
      keys, data, isParamChanged := keys + [id], data[id := packet], true;
      return true;
    }

    method ChangeParam(id: int, packet: seq<int>) returns (changed: bool)
      requires Valid()
      modifies this`data, this`isParamChanged
      ensures Valid() && changed == (id in old(data) && |packet| <= dataLength)
      ensures data == if changed then old(data)[id := packet] else old(data)
    {
      if id !in data || |packet| > dataLength { return false; }
      data, isParamChanged := data[id := packet], true;
      return true;
    }

    method RemoveParam(id: int)
      requires Valid()
      modifies this`keys, this`data, this`isParamChanged
      ensures Valid() && data == old(data) - {id} && keys == Without(old(keys), id)
    {
      WithoutMembers(keys, id);
      WithoutDistinct(keys, id);
      if id !in data {
        WithoutAbsent(keys, id);
        return;
      }
      keys, data, isParamChanged := Without(keys, id), data - {id}, true;
      assert forall i :: 0 <= i < |keys| ==> keys[i] in keys;
    }

    // Stops early at an entry without data.
    method MakeParam()
      requires Valid()
      modifies this`param
      ensures param == if keys == [] then old(param) else Block(keys, data)
    {
      if keys == [] { return; }
      param := [];
      for i := 0 to |keys|
        invariant param + Block(keys[i..], data) == Block(keys, data)
      {
        assert keys[i..][1..] == keys[i + 1..];
        if data[keys[i]] == [] {
          assert param + [] == param;
          return;
        }
        param := param + [keys[i]];
        param := param + data[keys[i]];
      }
      assert param + [] == param;
    }

    // The block that goes out is made from the table as it is now.
    method TxPacket(tx: Comm) returns (r: Comm, sent: Option<seq<int>>)
      requires Valid()
      modifies this`param
      ensures r == if keys == [] then NotAvailable else tx
      ensures sent == if keys == [] then None else Some(Block(keys, data))
    {
      if keys == [] { return NotAvailable, None; }
      if isParamChanged || param == [] {
        MakeParam();
      }
      return tx, Some(param);
    }

    method SyncWritePosEx(ts: seq<Entry>, tx: Comm) returns (r: Comm, sent: Option<seq<int>>)
      requires Valid() && dataLength == 7 && Distinct(Ids(ts))
      modifies this
      ensures Valid()
      ensures r == if ts == [] then NotAvailable else tx
      ensures sent == if ts == [] then None else Some(Encode(ts))
    {
      ClearParam();
      AddTargets(ts);
      BlockOfTargets(ts, data);
      r, sent := TxPacket(tx);
    }

    method AddTargets(ts: seq<Entry>)
      requires Valid() && keys == [] && dataLength == 7 && Distinct(Ids(ts))
      modifies this`keys, this`data, this`isParamChanged
      ensures Valid() && keys == Ids(ts)
      ensures Tabled(ts, data)
    {
      for i := 0 to |ts|
        invariant Valid() && keys == Ids(ts[..i]) && Tabled(ts[..i], data)
      {
        assert ts[..i + 1] == ts[..i] + [ts[i]];
        assert ts[i].id !in Ids(ts[..i]) by { FreshId(ts, i); }
        AddTarget(ts[..i], ts[i]);
      }
      assert ts[..|ts|] == ts;
    }

    method AddTarget(ghost before: seq<Entry>, e: Entry)
      requires Valid() && keys == Ids(before) && dataLength == 7 && Tabled(before, data) && e.id !in Ids(before)
      modifies this`keys, this`data, this`isParamChanged
      ensures Valid() && keys == Ids(before + [e]) && Tabled(before + [e], data)
    {
      TabledSnoc(before, e, data);
      assert Ids(before + [e]) == Ids(before) + [e.id];
      var _ := AddParam(e.id, Packet(e.target));
    }
  }
}
