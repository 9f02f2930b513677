/**
 Bulk position reads: the resynchronising frame scanner over one reply buffer, and
 the table of replies that one bulk read fills and clears.
 */
module SyncRead {
  import opened Wrappers
  import opened Lists
  import opened ServoWords

  datatype Comm = Success | RxCorrupt | NotAvailable | Failed(code: int)

  datatype Frame = Frame(error: byte, data: seq<byte>)

  // ---------------------------------------------------------------- frames in a buffer

  predicate HeaderAt(rx: seq<byte>, p: int, id: int) {
    0 <= p && p + 3 <= |rx| && rx[p] == 0xFF && rx[p + 1] == 0xFF && rx[p + 2] == id
  }

  function Sum(s: seq<byte>): nat {
    if s == [] then 0 else Sum(s[..|s| - 1]) + s[|s| - 1]
  }

  // ~sum & 0xFF
  function Checksum(sum: int): byte { (-sum - 1) % 256 }

  // A checksum fills the sum up to 255, modulo 256.
  lemma ChecksumIff(sum: int, b: byte)
    ensures b == Checksum(sum) <==> (sum + b) % 256 == 255
  {
  }

  // FF FF id length error data checksum, contiguous, and the bytes behind the two FF add
  // up to 255, modulo 256.
  predicate FrameAt(rx: seq<byte>, p: int, id: int, length: nat, f: Frame) {
    && HeaderAt(rx, p, id)
    && p + 6 + length <= |rx|
    && rx[p + 3] == length + 2
    && f == Frame(rx[p + 4], rx[p + 5..p + 5 + length])
    && (id + (length + 2) + f.error + Sum(f.data) + rx[p + 5 + length]) % 256 == 255
  }

  // The first header at or after `from`, or |rx|.
  function NextHeader(rx: seq<byte>, id: int, from: nat): (p: nat)
    requires from <= |rx|
    ensures from <= p <= |rx|
    ensures p < |rx| ==> HeaderAt(rx, p, id)
    ensures forall q :: from <= q < p ==> !HeaderAt(rx, q, id)
    decreases |rx| - from
  {
    if from == |rx| || HeaderAt(rx, from, id) then from else NextHeader(rx, id, from + 1)
  }

  // The scanner's answer: look for a header; if its length byte is wrong, resume
  // after that byte; otherwise the checksum decides.
  function Scan(rx: seq<byte>, id: int, length: nat, from: nat): (r: Option<Frame>)
    requires from <= |rx|
    ensures r.Some? ==> |r.value.data| == length
    decreases |rx| - from
  {
    if from + 6 + length > |rx| then None
    else
      var p := NextHeader(rx, id, from);
      if p + 6 + length > |rx| then None
      else if rx[p + 3] != length + 2 then Scan(rx, id, length, p + 4)
      else Judge(rx, id, length, p + 4)
  }

  // The frame whose error byte is at `i`, if its checksum is right.
  function Judge(rx: seq<byte>, id: int, length: nat, i: nat): (r: Option<Frame>)
    requires i + 2 + length <= |rx|
    ensures r.Some? ==> |r.value.data| == length
  {
    var f := Frame(rx[i], rx[i + 1..i + 1 + length]);
    if rx[i + 1 + length] == Checksum(id + (length + 2) + f.error + Sum(f.data)) then Some(f) else None
  }

  // The list stored for a servo that answered: its error byte, then its data.
  function StoredReply(f: Frame): seq<byte> { [f.error] + f.data }

  function Report(r: Option<Frame>): (Option<seq<byte>>, Comm) {
    match r case Some(f) => (Some(StoredReply(f)), Success) case None => (None, RxCorrupt)
  }

  // Success means the buffer holds a whole valid frame for this id, and the answer is it.
  lemma {:induction false} ScanSound(rx: seq<byte>, id: int, length: nat, from: nat) returns (p: nat)
    requires from <= |rx| && Scan(rx, id, length, from).Some?
    ensures from <= p && FrameAt(rx, p, id, length, Scan(rx, id, length, from).value)
    decreases |rx| - from
  {
    p := NextHeader(rx, id, from);
    if rx[p + 3] != length + 2 {
      p := ScanSound(rx, id, length, p + 4);
    } else {
      JudgedFrame(rx, id, length, p, Scan(rx, id, length, from).value);
    }
  }

  lemma JudgedFrame(rx: seq<byte>, id: int, length: nat, p: nat, f: Frame)
    requires HeaderAt(rx, p, id) && p + 6 + length <= |rx| && rx[p + 3] == length + 2
    ensures Judge(rx, id, length, p + 4) == Some(f) <==> FrameAt(rx, p, id, length, f)
  {
    var given := Frame(rx[p + 4], rx[p + 5..p + 5 + length]);
    ChecksumIff(id + (length + 2) + given.error + Sum(given.data), rx[p + 5 + length]);
  }

  // A whole valid frame is found when no header before it looks like a frame of this
  // length or ends right where the frame begins.
  lemma {:induction false} ScanComplete(rx: seq<byte>, id: int, length: nat, from: nat, p: nat, f: Frame)
    requires from <= p && FrameAt(rx, p, id, length, f)
    requires forall q :: from <= q < p && HeaderAt(rx, q, id) ==> rx[q + 3] != length + 2 && q + 4 <= p
    ensures Scan(rx, id, length, from) == Some(f)
    decreases |rx| - from
  {
    var q := NextHeader(rx, id, from);
    if q < p { ScanComplete(rx, id, length, q + 4, p, f); } else { JudgedFrame(rx, id, length, p, f); }
  }

  // How many headers stand back to back directly before p, three bytes apart.
  function Before(rx: seq<byte>, id: int, p: int): nat
    decreases p
  {
    if p >= 3 && HeaderAt(rx, p - 3, id) then 1 + Before(rx, id, p - 3) else 0
  }

  // The scanner takes every second header of a back-to-back row: it resumes after the
  // byte behind a header, which is the first byte of the next one.
  predicate Seen(rx: seq<byte>, id: int, p: int) { HeaderAt(rx, p, id) && Before(rx, id, p) % 2 == 0 }

  // The first header that the scanner takes with the right length byte starts a whole
  // frame with a right checksum.
  predicate FirstSeenFrame(rx: seq<byte>, id: int, length: nat, p: int, f: Frame) {
    && FrameAt(rx, p, id, length, f) && Seen(rx, id, p)
    && forall q :: 0 <= q < p && Seen(rx, id, q) ==> rx[q + 3] != length + 2
  }

  // Headers one or two bytes apart would need the id to be 0xFF.
  lemma NoOverlap(rx: seq<byte>, id: int, p: int)
    requires HeaderAt(rx, p, id) && id != 0xFF
    ensures !HeaderAt(rx, p + 1, id) && !HeaderAt(rx, p + 2, id)
  {
  }

  // Where the scanner looks for a header: at the start, or after the byte behind a
  // header it took.
  predicate Resumes(rx: seq<byte>, id: int, from: nat) { from == 0 || (from >= 4 && Seen(rx, id, from - 4)) }

  // The next header from there is taken, and none between the last one and it.
  lemma NextIsSeen(rx: seq<byte>, id: int, from: nat)
    requires id != 0xFF && from <= |rx| && Resumes(rx, id, from)
    ensures var p := NextHeader(rx, id, from);
      && (p < |rx| ==> Seen(rx, id, p))
      && forall q :: from - 3 <= q < p ==> !Seen(rx, id, q)
  {
    var p := NextHeader(rx, id, from);
    if from >= 4 {
      NoOverlap(rx, id, from - 4);
      assert Before(rx, id, from - 1) == 1 + Before(rx, id, from - 4);
    }
    if p < |rx| && p >= 3 && HeaderAt(rx, p - 3, id) {
      assert from >= 4 && p - 3 == from - 1;
    }
  }

  // No header taken before `end` has the right length byte.
  predicate NoneFits(rx: seq<byte>, id: int, length: nat, end: int) {
    forall q :: 0 <= q < end && q + 3 < |rx| && Seen(rx, id, q) ==> rx[q + 3] != length + 2
  }

  lemma SkipToNext(rx: seq<byte>, id: int, length: nat, from: nat)
    requires id != 0xFF && from <= |rx| && Resumes(rx, id, from) && NoneFits(rx, id, length, from)
    ensures var h := NextHeader(rx, id, from);
      && NoneFits(rx, id, length, h)
      && (h + 4 <= |rx| && rx[h + 3] != length + 2 ==>
            Resumes(rx, id, h + 4) && NoneFits(rx, id, length, h + 4))
  {
    var h := NextHeader(rx, id, from);
    NextIsSeen(rx, id, from);
    if h + 4 <= |rx| && rx[h + 3] != length + 2 {
      NextIsSeen(rx, id, h + 4);
    }
  }

  // No frame is found before `h`, and none fits behind it.
  lemma NoRoomLeft(rx: seq<byte>, id: int, length: nat, h: nat, f: Frame)
    requires NoneFits(rx, id, length, h) && h + 6 + length > |rx|
    ensures !exists p :: FirstSeenFrame(rx, id, length, p, f)
  {
  }

  // At a header taken with the right length byte the checksum decides.
  lemma JudgeIff(rx: seq<byte>, id: int, length: nat, h: nat, f: Frame)
    requires NoneFits(rx, id, length, h) && Seen(rx, id, h) && h + 6 + length <= |rx| && rx[h + 3] == length + 2
    ensures Judge(rx, id, length, h + 4) == Some(f) <==> exists p :: FirstSeenFrame(rx, id, length, p, f)
  {
    JudgedFrame(rx, id, length, h, f);
    if FrameAt(rx, h, id, length, f) {
      assert FirstSeenFrame(rx, id, length, h, f);
    }
  }

  lemma ScanStep(rx: seq<byte>, id: int, length: nat, from: nat)
    requires from <= |rx|
    ensures var h := NextHeader(rx, id, from);
      Scan(rx, id, length, from) ==
        if h + 6 + length > |rx| then None
        else if rx[h + 3] != length + 2 then Scan(rx, id, length, h + 4)
        else Judge(rx, id, length, h + 4)
  {
  }

  lemma {:induction false} ScanFromIff(rx: seq<byte>, id: int, length: nat, from: nat, f: Frame)
    requires id != 0xFF && from <= |rx| && Resumes(rx, id, from) && NoneFits(rx, id, length, from)
    ensures Scan(rx, id, length, from) == Some(f) <==> exists p :: FirstSeenFrame(rx, id, length, p, f)
    decreases |rx| - from
  {
    var h := NextHeader(rx, id, from);
    SkipToNext(rx, id, length, from);
    ScanStep(rx, id, length, from);
    if h + 6 + length > |rx| {
      NoRoomLeft(rx, id, length, h, f);
    } else if rx[h + 3] != length + 2 {
      ScanFromIff(rx, id, length, h + 4, f);
    } else {
      NextIsSeen(rx, id, from);
      JudgeIff(rx, id, length, h, f);
    }
  }

  // For every servo id (0xFF is not one) the scanner succeeds exactly when the first
  // header it takes with the right length byte starts a whole frame with a right checksum.
  lemma ScanIff(rx: seq<byte>, id: int, length: nat, f: Frame)
    requires id != 0xFF
    ensures Scan(rx, id, length, 0) == Some(f) <==> exists p :: FirstSeenFrame(rx, id, length, p, f)
  {
    ScanFromIff(rx, id, length, 0, f);
  }

  // A whole valid frame that is the only one with its length byte is lost exactly when
  // an odd number of headers stands back to back directly before it.
  lemma SwallowedIff(rx: seq<byte>, id: int, length: nat, p: int, f: Frame)
    requires id != 0xFF && FrameAt(rx, p, id, length, f)
    requires forall q :: HeaderAt(rx, q, id) && q != p && q + 3 < |rx| ==> rx[q + 3] != length + 2
    ensures Scan(rx, id, length, 0).None? <==> Before(rx, id, p) % 2 == 1
  {
    var r := Scan(rx, id, length, 0);
    if r.Some? {
      ScanIff(rx, id, length, r.value);
      var q :| FirstSeenFrame(rx, id, length, q, r.value);
      assert q == p;
    } else {
      ScanIff(rx, id, length, f);
      assert !FirstSeenFrame(rx, id, length, p, f);
    }
  }

  // One header with a wrong length byte, right before a whole valid frame, loses it.
  lemma SwallowedFrame()
    ensures var rx: seq<byte> := [0xFF, 0xFF, 1, 0xFF, 0xFF, 1, 2, 0, 252];
      FrameAt(rx, 3, 1, 0, Frame(0, [])) && Scan(rx, 1, 0, 0).None?
  {
    var rx: seq<byte> := [0xFF, 0xFF, 1, 0xFF, 0xFF, 1, 2, 0, 252];
    assert rx[8..8] == [];
    assert HeaderAt(rx, 0, 1) && Before(rx, 1, 0) == 0 && Before(rx, 1, 3) == 1;
    SwallowedIff(rx, 1, 0, 3, Frame(0, []));
  }

  // ---------------------------------------------------------------- the scanner as written

  // What the scanner does just behind a header, or at the end of the buffer.
  lemma BehindHeader(rx: seq<byte>, id: int, length: nat, from: nat, i: nat)
    requires from < i <= |rx|
    requires var p := NextHeader(rx, id, from); i == if p < |rx| then p + 3 else |rx|
    ensures Scan(rx, id, length, from) ==
      if i + 3 + length > |rx| then None
      else if rx[i] != length + 2 then Scan(rx, id, length, i + 1)
      else Judge(rx, id, length, i + 1)
  {
    ScanStep(rx, id, length, from);
  }

  // headpacket is a three-byte shift register, cleared at every resynchronisation.
  method ReadRx(rx: seq<byte>, id: int, length: nat) returns (data: Option<seq<byte>>, result: Comm)
    ensures (data, result) == Report(Scan(rx, id, length, 0))
  {
    var i := 0;
    ghost var answer := Scan(rx, id, length, 0);
    while i + 6 + length <= |rx|
      invariant 0 <= i <= |rx|
      invariant answer == Scan(rx, id, length, i)
      decreases |rx| - i
    {
      ghost var from := i;
      i := SeekHeader(rx, id, i);
      BehindHeader(rx, id, length, from, i);
      if i + 3 + length > |rx| {
        return None, RxCorrupt;
      }
      if rx[i] != length + 2 {
        i := i + 1;
        continue;
      }
      data, result := ReadFrame(rx, id, length, i + 1);
      return;
    }
    return None, RxCorrupt;
  }

  // Error byte, data and checksum, starting just after the length byte.
  method ReadFrame(rx: seq<byte>, id: int, length: nat, from: nat) returns (data: Option<seq<byte>>, result: Comm)
    requires from + 2 + length <= |rx|
    ensures (data, result) == Report(Judge(rx, id, length, from))
  {
    var error := rx[from];
    var i := from + 1;
    var frame := rx[i..i + length];
    var sum := id + (length + 2) + error;
    for k := 0 to length
      invariant i == from + 1 + k
      invariant sum == id + (length + 2) + error + Sum(frame[..k])
    {
      assert frame[..k + 1][..k] == frame[..k];
      sum := sum + rx[i];
      i := i + 1;
    }
    assert frame[..length] == frame;
    if Checksum(sum) != rx[i] {
      return None, RxCorrupt;
    }
    return Some([error] + frame), Success;
  }

  // Reads bytes until FF FF id has just passed, or to the end of the buffer.
  method SeekHeader(rx: seq<byte>, id: int, from: nat) returns (i: nat)
    requires from < |rx|
    ensures from < i <= |rx|
    ensures var p := NextHeader(rx, id, from); i == if p < |rx| then p + 3 else |rx|
  {
    var h0, h1, h2 := 0, 0, 0;
    i := from;
    while i < |rx|
      invariant from <= i <= |rx|
      invariant h0 == (if i - 1 >= from then rx[i - 1] else 0)
      invariant h1 == (if i - 2 >= from then rx[i - 2] else 0)
      invariant forall q :: from <= q && q + 3 <= i ==> !HeaderAt(rx, q, id)
    {
      h2, h1, h0 := h1, h0, rx[i];
      i := i + 1;
      if h2 == 0xFF && h1 == 0xFF && h0 == id {
        assert HeaderAt(rx, i - 3, id);
        return;
      }
    }
  }

  // ---------------------------------------------------------------- the reply table

  const PRESENT_POSITION := 56

  function Filled(r: Option<Frame>, before: seq<byte>): seq<byte> {
    match r case Some(f) => StoredReply(f) case None => before
  }

  function Position(f: Frame): int
    requires |f.data| == 4
  {
    MakeWord(Little, f.data[0], f.data[1])
  }

  // What the port does during one bulk read.
  datatype Exchange = Exchanged(sent: Comm, reply: Comm, rx: seq<byte>) | PortRaised

  // The reply to `id` in an exchange, when there is one.
  function Reply(io: Exchange, id: int, length: nat): (r: Option<Frame>)
    ensures r.Some? ==> |r.value.data| == length
  {
    if io.Exchanged? && io.sent == Success && |io.rx| >= length + 6 then Scan(io.rx, id, length, 0) else None
  }

  // Exactly the listed servos that answered, each with the position it reported.
  ghost predicate PositionsOf(ids: seq<int>, io: Exchange, positions: map<int, int>) {
    && (forall id :: id in positions <==> id in ids && Reply(io, id, 4).Some?)
    && (forall id :: id in positions ==> positions[id] == Position(Reply(io, id, 4).value))
  }

  // The data of a frame starts with the low and the high byte of `w`.
  predicate Says(f: Frame, w: int) { |f.data| == 4 && w == f.data[0] as int + 256 * f.data[1] as int }

  // A whole valid frame of the servo in the buffer says `w`.
  ghost predicate Heard(rx: seq<byte>, id: int, w: int) { exists p: nat, f :: FrameAt(rx, p, id, 4, f) && Says(f, w) }

  // The first header of the servo that the scanner takes with the right length byte starts
  // such a frame.
  ghost predicate HeardFirst(rx: seq<byte>, id: int, w: int) {
    exists p, f :: FirstSeenFrame(rx, id, 4, p, f) && Says(f, w)
  }

  // What is reported was said by the servo in this exchange; and what a servo says in the
  // frame that the scanner comes to is reported, if it was asked.
  ghost predicate Truthful(ids: seq<int>, io: Exchange, positions: map<int, int>) {
    && (forall id :: id in positions ==>
          id in ids && io.Exchanged? && io.sent == Success && Heard(io.rx, id, positions[id]))
    && (forall id, w :: id != 0xFF ==>
          (id in positions && positions[id] == w <==>
             id in ids && io.Exchanged? && io.sent == Success && HeardFirst(io.rx, id, w)))
  }

  lemma PositionsAreTruthful(ids: seq<int>, io: Exchange, positions: map<int, int>)
    requires PositionsOf(ids, io, positions)
    ensures Truthful(ids, io, positions)
  {
    forall id | id in positions
      ensures io.Exchanged? && io.sent == Success && Heard(io.rx, id, positions[id])
    {
      ReplyHeard(io, id);
    }
    forall id, w | id != 0xFF
      ensures id in positions && positions[id] == w <==>
                id in ids && io.Exchanged? && io.sent == Success && HeardFirst(io.rx, id, w)
    {
      ReplyIff(io, id, w);
    }
  }

  lemma ReplyHeard(io: Exchange, id: int)
    requires Reply(io, id, 4).Some?
    ensures io.Exchanged? && io.sent == Success && Heard(io.rx, id, Position(Reply(io, id, 4).value))
  {
    var f := Reply(io, id, 4).value;
    var p := ScanSound(io.rx, id, 4, 0);
    assert FrameAt(io.rx, p, id, 4, f) && Says(f, Position(f));
  }

  lemma ReplyIff(io: Exchange, id: int, w: int)
    requires id != 0xFF
    ensures Reply(io, id, 4).Some? && Position(Reply(io, id, 4).value) == w <==>
              io.Exchanged? && io.sent == Success && HeardFirst(io.rx, id, w)
  {
    var r := Reply(io, id, 4);
    if r.Some? {
      ScanIff(io.rx, id, 4, r.value);
      SaysPosition(r.value, w);
    }
    if io.Exchanged? && io.sent == Success && HeardFirst(io.rx, id, w) {
      var p, f :| FirstSeenFrame(io.rx, id, 4, p, f) && Says(f, w);
      ScanIff(io.rx, id, 4, f);
      SaysPosition(f, w);
    }
  }

  lemma SaysPosition(f: Frame, w: int)
    requires |f.data| == 4
    ensures Says(f, w) <==> Position(f) == w
  {
  }

  lemma PositionsSnoc(ids: seq<int>, i: nat, io: Exchange, before: map<int, int>, after: map<int, int>)
    requires i < |ids| && PositionsOf(ids[..i], io, before)
    requires var r := Reply(io, ids[i], 4); after == if r.Some? then before[ids[i] := Position(r.value)] else before
    ensures PositionsOf(ids[..i + 1], io, after)
  {
    assert ids[..i + 1] == ids[..i] + [ids[i]];
  }

  predicate AllAnswer(rx: seq<byte>, length: nat, ids: seq<int>) {
    forall id :: id in ids ==> Scan(rx, id, length, 0).Some?
  }

  lemma AllAnswerSnoc(rx: seq<byte>, length: nat, ids: seq<int>, i: nat)
    requires i < |ids|
    ensures AllAnswer(rx, length, ids[..i + 1]) <==> AllAnswer(rx, length, ids[..i]) && Scan(rx, ids[i], length, 0).Some?
  {
    assert ids[..i + 1] == ids[..i] + [ids[i]];
  }

  // After the first i servos were scanned for: their replies are stored, the others' lists kept.
  ghost predicate Answered(rx: seq<byte>, length: nat, keys: seq<int>, i: nat,
                           before: map<int, seq<byte>>, data: map<int, seq<byte>>)
    requires i <= |keys|
  {
    && data.Keys == before.Keys
    && (forall j :: 0 <= j < |keys| ==> keys[j] in before)
    && (forall j :: 0 <= j < i ==> data[keys[j]] == Filled(Scan(rx, keys[j], length, 0), before[keys[j]]))
    && (forall j :: i <= j < |keys| ==> data[keys[j]] == before[keys[j]])
  }

  lemma AnsweredSnoc(rx: seq<byte>, length: nat, keys: seq<int>, i: nat,
                     before: map<int, seq<byte>>, data: map<int, seq<byte>>)
    requires i < |keys| && Distinct(keys) && Answered(rx, length, keys, i, before, data)
    ensures Answered(rx, length, keys, i + 1, before,
                     data[keys[i] := Filled(Scan(rx, keys[i], length, 0), data[keys[i]])])
  {
    assert forall j :: 0 <= j < |keys| && j != i ==> keys[j] != keys[i];
  }

  lemma AnsweredAll(rx: seq<byte>, length: nat, keys: seq<int>, before: map<int, seq<byte>>, data: map<int, seq<byte>>)
    requires Answered(rx, length, keys, |keys|, before, data) && forall k :: k in before ==> k in keys
    ensures forall k :: k in data ==> data[k] == Filled(Scan(rx, k, length, 0), before[k])
  {
  }

  // The servos already in the table, then the newly listed ones, each once.
  function Requested(keys: seq<int>, ids: seq<int>): seq<int> {
    if ids == [] then keys
    else
      var before, id := Requested(keys, ids[..|ids| - 1]), ids[|ids| - 1];
      if id in before then before else before + [id]
  }

  class GroupSyncRead {
    const startAddress: int
    const dataLength: nat
    var lastResult: bool
    var isParamChanged: bool
    var param: seq<int>
    var keys: seq<int>               // data_dict's keys in insertion order
    var data: map<int, seq<byte>>    // data_dict

    ghost predicate Valid()
      reads this
    {
      && Distinct(keys)
      && (forall i :: 0 <= i < |keys| ==> keys[i] in data)
      && (forall k :: k in data ==> k in keys)
      && (keys != [] ==> isParamChanged)
    }

    // Between bulk reads no reply is stored, even after a read that raised.
    ghost predicate Blank()
      reads this
    {
      Valid() && forall k :: k in data ==> data[k] == []
    }

    constructor (startAddress: int, dataLength: nat)
      ensures Blank() && keys == []
      ensures this.startAddress == startAddress && this.dataLength == dataLength
    {
      this.startAddress, this.dataLength := startAddress, dataLength;
      lastResult, isParamChanged, param, keys, data := false, false, [], [], map[];
    }

    method AddParam(id: int) returns (added: bool)
      requires Valid()
      modifies this
      ensures Valid() && added == (id !in old(data)) && lastResult == old(lastResult)
      ensures data == if added then old(data)[id := []] else old(data)
      ensures keys == if added then old(keys) + [id] else old(keys)
    {
      if id in data { return false; }
      keys, data, isParamChanged := keys + [id], data[id := []], true;
      return true;
    }

    method ClearParam()
      modifies this`keys, this`data
      ensures Blank() && keys == [] && data == map[]
    {
      keys, data := [], map[];
    }

    method MakeParam()
      modifies this`param
      ensures param == if keys == [] then old(param) else keys
    {
      if keys == [] { return; }
      param := [];
      for i := 0 to |keys|
        invariant param == keys[..i]
      {
        param := param + [keys[i]];
      }
    }

    method TxPacket(io: Exchange) returns (r: Comm)
      requires Valid() && io.Exchanged?
      modifies this`param
      ensures r == if keys == [] then NotAvailable else io.sent
      ensures param == if keys == [] then old(param) else keys
    {
      if keys == [] { return NotAvailable; }
      if isParamChanged || param == [] {
        MakeParam();
      }
      return io.sent;
    }

    method RxPacket(io: Exchange) returns (r: Comm)
      requires Valid() && io.Exchanged?
      modifies this`data, this`lastResult
      ensures Valid()
      ensures data.Keys == old(data.Keys)
      ensures keys == [] ==> r == NotAvailable && lastResult
      ensures keys != [] && |io.rx| < dataLength + 6 ==> r == io.reply && !lastResult
      ensures keys != [] && |io.rx| >= dataLength + 6 ==>
                && r == Report(Scan(io.rx, keys[|keys| - 1], dataLength, 0)).1
                && (lastResult <==> AllAnswer(io.rx, dataLength, keys))
      ensures forall k :: k in data ==>
                data[k] == Filled(if |io.rx| >= dataLength + 6 then Scan(io.rx, k, dataLength, 0) else None, old(data)[k])
    {
      lastResult := true;
      if keys == [] {
        return NotAvailable;
      }
      r := io.reply;
      if |io.rx| >= dataLength + 6 {
        r := StoreReplies(io.rx);
      } else {
        lastResult := false;
      }
    }

    // Scans the buffer once for every requested servo; the last scan's result is returned.
    method StoreReplies(rx: seq<byte>) returns (r: Comm)
      requires Valid() && keys != [] && lastResult
      modifies this`data, this`lastResult
      ensures r == Report(Scan(rx, keys[|keys| - 1], dataLength, 0)).1
      ensures lastResult <==> AllAnswer(rx, dataLength, keys)
      ensures Valid() && data.Keys == old(data.Keys)
      ensures forall k :: k in data ==> data[k] == Filled(Scan(rx, k, dataLength, 0), old(data)[k])
    {
      r := Success;
      ghost var before := data;
      for i := 0 to |keys|
        invariant Answered(rx, dataLength, keys, i, before, data)
        invariant lastResult <==> AllAnswer(rx, dataLength, keys[..i])
        invariant i > 0 ==> r == Report(Scan(rx, keys[i - 1], dataLength, 0)).1
      {
        r := StoreNext(rx, i, before);
      }
      assert keys[..|keys|] == keys;
      AnsweredAll(rx, dataLength, keys, before, data);
    }

    method StoreNext(rx: seq<byte>, i: nat, ghost before: map<int, seq<byte>>) returns (r: Comm)
      requires i < |keys| && Distinct(keys) && Answered(rx, dataLength, keys, i, before, data)
      requires lastResult <==> AllAnswer(rx, dataLength, keys[..i])
      modifies this`data, this`lastResult
      ensures Answered(rx, dataLength, keys, i + 1, before, data)
      ensures lastResult <==> AllAnswer(rx, dataLength, keys[..i + 1])
      ensures r == Report(Scan(rx, keys[i], dataLength, 0)).1
    {
      AnsweredSnoc(rx, dataLength, keys, i, before, data);
      AllAnswerSnoc(rx, dataLength, keys, i);
      r := StoreReply(rx, keys[i]);
    }

    method StoreReply(rx: seq<byte>, id: int) returns (r: Comm)
      requires id in data
      modifies this`data, this`lastResult
      ensures var answer := Scan(rx, id, dataLength, 0);
        && r == Report(answer).1
        && data == old(data)[id := Filled(answer, old(data)[id])]
        && lastResult == (old(lastResult) && answer.Some?)
    {
      var raw, result := ReadRx(rx, id, dataLength);
      r := result;
      if raw.Some? { data := data[id := raw.value]; }
      if result != Success { lastResult := false; }
    }

    method IsAvailable(id: int, address: int, length: nat) returns (available: bool, error: int)
      ensures available <==> id in data && startAddress <= address
                             && address <= startAddress + dataLength - length
                             && data[id] != [] && |data[id]| >= length + 1
      ensures error == if available then data[id][0] else 0
    {
      if id !in data { return false, 0; }
      if address < startAddress || startAddress + dataLength - length < address { return false, 0; }
      if data[id] == [] { return false, 0; }
      if |data[id]| < length + 1 { return false, 0; }
      return true, data[id][0];
    }

    method GetWord(id: int, address: int) returns (w: int)
      requires id in data && startAddress <= address && address - startAddress + 2 < |data[id]|
      ensures w == MakeWord(Little, data[id][address - startAddress + 1], data[id][address - startAddress + 2])
    {
      w := MakeWord(Little, data[id][address - startAddress + 1], data[id][address - startAddress + 2]);
    }

    // Requests every listed servo, and gives the positions of those that answered in
    // this exchange.  When the port raises, no reply has been stored.
    method SyncReadPos(ids: seq<int>, io: Exchange) returns (r: Option<map<int, int>>)
      requires Blank() && startAddress == PRESENT_POSITION && dataLength == 4
      modifies this
      ensures Blank()
      ensures r.None? <==> io.PortRaised?
      ensures r.Some? ==> keys == [] && PositionsOf(ids, io, r.value) && Truthful(ids, io, r.value)
      ensures r.Some? && ids != [] ==> param == Requested(old(keys), ids)
    {
      RequestAll(ids);
      if io.PortRaised? {
        return None;
      }
      var sent := TxPacket(io);
      assert forall id :: id in data ==> keys != [];
      if sent == Success {
        var _ := RxPacket(io);
        assert forall id :: id in data ==> data[id] == Filled(Reply(io, id, dataLength), []);
      } else {
        assert forall id :: id in data ==> Reply(io, id, 4).None? && data[id] == [];
      }
      var positions := Positions(ids, io);
      ClearParam();
      return Some(positions);
    }

    method RequestAll(ids: seq<int>)
      requires Blank()
      modifies this
      ensures Blank() && keys == Requested(old(keys), ids)
      ensures forall j :: 0 <= j < |ids| ==> ids[j] in data
    {
      for i := 0 to |ids|
        invariant Blank() && keys == Requested(old(keys), ids[..i])
        invariant forall j :: 0 <= j < i ==> ids[j] in data
      {
        assert ids[..i + 1][..i] == ids[..i];
        Request(ids[i]);
      }
      assert ids[..|ids|] == ids;
    }

    method Request(id: int)
      requires Blank()
      modifies this
      ensures Blank() && id in data && old(data.Keys) <= data.Keys && lastResult == old(lastResult)
      ensures keys == if id in old(keys) then old(keys) else old(keys) + [id]
    {
      var _ := AddParam(id);
    }

    method Positions(ids: seq<int>, ghost io: Exchange) returns (positions: map<int, int>)
      requires startAddress == PRESENT_POSITION && dataLength == 4
      requires forall j :: 0 <= j < |ids| ==> ids[j] in data
      requires forall id :: id in data ==> data[id] == Filled(Reply(io, id, 4), [])
      ensures PositionsOf(ids, io, positions) && Truthful(ids, io, positions)
    {
      positions := map[];
      for i := 0 to |ids|
        invariant PositionsOf(ids[..i], io, positions)
      {
        var id := ids[i];
        ghost var before := positions;
        var available, _ := IsAvailable(id, PRESENT_POSITION, 4);
        if available {
          var position := GetWord(id, PRESENT_POSITION);
          positions := positions[id := position];
        }
        PositionsSnoc(ids, i, io, before, positions);
      }
      assert ids[..|ids|] == ids;
      PositionsAreTruthful(ids, io, positions);
    }
  }
}
