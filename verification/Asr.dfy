/** Speech recognition frames: chunking of PCM audio, framing and parsing. */
module Asr {
  import opened Wrappers
  import opened Lists
  import opened ServoWords
  import opened Wire

  datatype MsgType = FullClientRequest | AudioOnlyRequest | FullServerResponse | ErrorResponse
  datatype MsgFlag = NoSeq | PositiveSeq | LastNoSeq | LastNegativeSeq
  datatype Serialization = Raw | Json
  datatype Compression = Uncompressed | Gzip

  function TypeCode(t: MsgType): byte {
    match t case FullClientRequest => 1 case AudioOnlyRequest => 2 case FullServerResponse => 9 case ErrorResponse => 15
  }

  function TypeOf(code: int): Option<MsgType> {
    match code
    case 1 => Some(FullClientRequest)
    case 2 => Some(AudioOnlyRequest)
    case 9 => Some(FullServerResponse)
    case 15 => Some(ErrorResponse)
    case _ => None
  }

  function FlagCode(f: MsgFlag): byte {
    match f case NoSeq => 0 case PositiveSeq => 1 case LastNoSeq => 2 case LastNegativeSeq => 3
  }

  function FlagOf(code: int): Option<MsgFlag> {
    match code
    case 0 => Some(NoSeq)
    case 1 => Some(PositiveSeq)
    case 2 => Some(LastNoSeq)
    case 3 => Some(LastNegativeSeq)
    case _ => None
  }

  function SerializationCode(s: Serialization): byte { match s case Raw => 0 case Json => 1 }

  function CompressionCode(c: Compression): byte { match c case Uncompressed => 0 case Gzip => 1 }

  datatype Message = Message(
    msgType: MsgType, flag: MsgFlag, serialization: Serialization, compression: Compression,
    sequence: Option<int>, payload: bytes, errorCode: Option<nat>)

  predicate CarriesSequence(f: MsgFlag) { f == PositiveSeq || f == LastNegativeSeq }

  // ---------------------------------------------------------------- writing

  function Header(m: Message): bytes {
    [0x11, TypeCode(m.msgType) * 16 + FlagCode(m.flag),
     SerializationCode(m.serialization) * 16 + CompressionCode(m.compression), 0]
  }

  // The bytes of a frame; None where packing a number raises.
  function Pack(m: Message): Option<bytes> {
    var sequence := match m.sequence case Some(n) => PackI32(n) case None => Some([]);
    var size := PackU32(|m.payload|);
    if sequence.None? || size.None? then None
    else Some(Header(m) + sequence.value + size.value + m.payload)
  }

  method PackFrame(msgType: MsgType, flag: MsgFlag, serialization: Serialization, compression: Compression,
                   payload: bytes, sequence: Option<int>) returns (frame: Option<bytes>)
    ensures frame == Pack(Message(msgType, flag, serialization, compression, sequence, payload, None))
  {
    var buffer: bytes := [0x11, TypeCode(msgType) * 16 + FlagCode(flag),
                          SerializationCode(serialization) * 16 + CompressionCode(compression), 0];
    if sequence.Some? {
      var packed := PackI32(sequence.value);
      if packed.None? { return None; }
      buffer := buffer + packed.value;
    } else {
      assert buffer + [] == buffer;
    }
    var size := PackU32(|payload|);
    if size.None? { return None; }
    buffer := buffer + size.value;
    buffer := buffer + payload;
    return Some(buffer);
  }

  // ---------------------------------------------------------------- reading

  // The four header fields, or None where the header is refused.
  function Fields(data: bytes): Option<(MsgType, MsgFlag, Serialization, Compression)> {
    if |data| < 4 || data[0] as int / 16 != 1 || data[0] as int % 16 != 1 then None
    else if TypeOf(data[1] as int / 16).None? || FlagOf(data[1] as int % 16).None? then None
    else if data[2] as int / 16 > 1 || data[2] as int % 16 > 1 then None
    else Some((TypeOf(data[1] as int / 16).value, FlagOf(data[1] as int % 16).value,
               if data[2] as int / 16 == 0 then Raw else Json, if data[2] as int % 16 == 0 then Uncompressed else Gzip))
  }

  // The message in a frame; None where parsing raises.
  function Parse(data: bytes): Option<Message> {
    match Fields(data)
    case None => None
    case Some((msgType, flag, serialization, compression)) =>
      if msgType == ErrorResponse then
        if |data| < 12 then None
        else
          var size := ReadU32(data, 8).value;
          Some(Message(msgType, flag, serialization, compression, None, Slice(data, 12, size), ReadU32(data, 4)))
      else
        var at := if CarriesSequence(flag) then 8 else 4;
        var sequence := if CarriesSequence(flag) then ReadU32(data, 4) else None;
        if CarriesSequence(flag) && sequence.None? then None
        else match ReadU32(data, at)
          case None => None
          case Some(size) =>
            Some(Message(msgType, flag, serialization, compression,
                         if sequence.Some? then Some(Signed(sequence.value)) else None,
                         Slice(data, at + 4, size), None))
  }

  method FromBytes(data: bytes) returns (m: Option<Message>)
    ensures m == Parse(data)
  {
    var fields := Fields(data);
    if fields.None? { return None; }
    var (msgType, flag, serialization, compression) := fields.value;
    var offset := 4;
    var sequence: Option<int> := None;
    if msgType == ErrorResponse {
      if |data| < offset + 8 { return None; }
      var errorCode := ReadU32(data, offset);
      offset := offset + 4;
      var size := ReadU32(data, offset);
      offset := offset + 4;
      return Some(Message(msgType, flag, serialization, compression, sequence, Slice(data, offset, size.value), errorCode));
    }
    if flag == PositiveSeq || flag == LastNegativeSeq {
      var number := ReadU32(data, offset);
      if number.None? { return None; }
      sequence := Some(Signed(number.value));
      offset := offset + 4;
    }
    var size := ReadU32(data, offset);
    if size.None? { return None; }
    offset := offset + 4;
    return Some(Message(msgType, flag, serialization, compression, sequence, Slice(data, offset, size.value), None));
  }

  lemma FieldsOfHeader(m: Message, rest: bytes)
    ensures Fields(Header(m) + rest) == Some((m.msgType, m.flag, m.serialization, m.compression))
  {
    var data := Header(m) + rest;
    assert data[0] == 0x11 && data[1] == Header(m)[1] && data[2] == Header(m)[2];
    assert TypeOf(TypeCode(m.msgType) as int) == Some(m.msgType) && FlagOf(FlagCode(m.flag) as int) == Some(m.flag);
  }

  // An error frame holds a code, a size and so much payload; anything behind is ignored.
  lemma ErrorFrameReads(m: Message, code: nat, rest: bytes)
    requires m.msgType == ErrorResponse && code < WORD && |m.payload| < WORD
    ensures var frame := Header(m) + PackU32(code).value + PackU32(|m.payload|).value + m.payload + rest;
      Parse(frame) == Some(m.(sequence := None, errorCode := Some(code)))
  {
    var head, number, size := Header(m), PackU32(code).value, PackU32(|m.payload|).value;
    var frame := head + number + size + m.payload + rest;
    FieldsOfHeader(m, number + size + m.payload + rest);
    assert frame == head + (number + size + m.payload + rest);
    ReadPacked(head, number, size + m.payload + rest);
    assert frame == head + number + (size + m.payload + rest);
    ReadPacked(head + number, size, m.payload + rest);
    assert frame == (head + number) + size + (m.payload + rest);
    assert frame[12..12 + |m.payload|] == m.payload;
  }

  // One that ends within its code or size is refused.
  lemma ShortErrorFrame(m: Message, rest: bytes)
    requires m.msgType == ErrorResponse && |rest| < 8
    ensures Parse(Header(m) + rest).None?
  {
    FieldsOfHeader(m, rest);
  }

  // A frame that can be written reads back as the message written exactly when it is no
  // error frame and its flag says whether a sequence number is there.
  lemma FrameRoundTripIff(m: Message)
    requires Pack(m).Some? && m.errorCode.None?
    ensures Parse(Pack(m).value) == Some(m) <==> m.msgType != ErrorResponse && (m.sequence.Some? <==> CarriesSequence(m.flag))
  {
    FieldsReadBack(m);
    if m.msgType != ErrorResponse && (m.sequence.Some? <==> CarriesSequence(m.flag)) {
      RestReadsBack(m);
    }
  }

  lemma FieldsReadBack(m: Message)
    requires Pack(m).Some?
    ensures Fields(Pack(m).value) == Some((m.msgType, m.flag, m.serialization, m.compression))
  {
    var size := PackU32(|m.payload|).value;
    var sequence := match m.sequence case Some(n) => PackI32(n).value case None => [];
    assert Pack(m).value == Header(m) + (sequence + size + m.payload);
    FieldsOfHeader(m, sequence + size + m.payload);
  }

  // Behind the header: the sequence number if there is one, the length and the payload.
  lemma RestReadsBack(m: Message)
    requires Pack(m).Some?
    ensures var data, at := Pack(m).value, if m.sequence.Some? then 8 else 4;
      && ReadU32(data, at) == Some(|m.payload|) && Slice(data, at + 4, |m.payload|) == m.payload
      && (m.sequence.Some? ==> ReadU32(data, 4).Some? && Signed(ReadU32(data, 4).value) == m.sequence.value)
  {
    var data := Pack(m).value;
    var size := PackU32(|m.payload|).value;
    var sequence := match m.sequence case Some(n) => PackI32(n).value case None => [];
    SizedReadsBack(Header(m) + sequence, size, m.payload);
    if m.sequence.Some? {
      ReadPacked(Header(m), sequence, size + m.payload);
      Assoc(Header(m) + sequence, size, m.payload);
    }
  }

  lemma SizedReadsBack(before: bytes, size: bytes, payload: bytes)
    requires PackU32(|payload|) == Some(size)
    ensures ReadU32(before + size + payload, |before|) == Some(|payload|)
    ensures Slice(before + size + payload, |before| + 4, |payload|) == payload
  {
    ReadPacked(before, size, payload);
    assert (before + size + payload)[|before| + 4..|before| + 4 + |payload|] == payload;
  }

  // ---------------------------------------------------------------- chunking

  // The PCM data of a wave file and how it was recorded.
  datatype Wave = Wave(rate: nat, channels: nat, width: nat, pcm: bytes)

  datatype Format = Format(rate: nat, channels: nat, bits: nat, chunkMs: nat)

  function FrameSize(f: Format): nat {
    var samples := f.rate * f.chunkMs / 1000;
    (if samples > 1 then samples else 1) * f.channels * (f.bits / 8)
  }

  function Chunks(pcm: bytes, size: nat): seq<bytes>
    requires size >= 1
  {
    if |pcm| <= size then (if pcm == [] then [] else [pcm]) else [pcm[..size]] + Chunks(pcm[size..], size)
  }

  // None where the wave file does not have the configured format.
  function PcmChunks(w: Wave, f: Format): Option<seq<bytes>> {
    if w.rate != f.rate || w.channels != f.channels || f.bits != 16 || w.width != 2 || FrameSize(f) == 0 then None
    else Some(Chunks(w.pcm, FrameSize(f)))
  }

  function Joined(chunks: seq<bytes>): bytes {
    if chunks == [] then [] else chunks[0] + Joined(chunks[1..])
  }

  lemma {:induction false} ChunksJoin(pcm: bytes, size: nat)
    requires size >= 1
    ensures Joined(Chunks(pcm, size)) == pcm
    ensures forall i :: 0 <= i < |Chunks(pcm, size)| ==> 1 <= |Chunks(pcm, size)[i]| <= size
    ensures forall i :: 0 <= i < |Chunks(pcm, size)| - 1 ==> |Chunks(pcm, size)[i]| == size
    ensures Chunks(pcm, size) == [] <==> pcm == []
    decreases |pcm|
  {
    var all := Chunks(pcm, size);
    if |pcm| > size {
      ChunksJoin(pcm[size..], size);
      assert all[1..] == Chunks(pcm[size..], size);
      assert pcm == pcm[..size] + pcm[size..];
    } else if pcm != [] {
      assert all[1..] == [] && Joined(all) == pcm + [];
    }
  }

  // ---------------------------------------------------------------- the stream

  // The k-th frame of a stream: the request, then the chunks; the last one is negative and flagged.
  function StreamMessage(request: bytes, chunks: seq<bytes>, k: nat): Message
    requires k <= |chunks|
  {
    if k == 0 then Message(FullClientRequest, PositiveSeq, Json, Gzip, Some(1), request, None)
    else if k == |chunks|
    then Message(AudioOnlyRequest, LastNegativeSeq, Raw, Uncompressed, Some(-(k + 1)), chunks[k - 1], None)
    else Message(AudioOnlyRequest, PositiveSeq, Raw, Uncompressed, Some(k + 1), chunks[k - 1], None)
  }

  // Sends the request and every chunk; None where one of the frames cannot be packed.
  method SendStream(request: bytes, chunks: seq<bytes>) returns (frames: Option<seq<bytes>>)
    ensures frames.Some? <==> forall k :: 0 <= k <= |chunks| ==> Pack(StreamMessage(request, chunks, k)).Some?
    ensures frames.Some? ==> |frames.value| == |chunks| + 1
    ensures frames.Some? ==> forall k :: 0 <= k <= |chunks| ==>
              Pack(StreamMessage(request, chunks, k)) == Some(frames.value[k])
  {
    var first := PackFrame(FullClientRequest, PositiveSeq, Json, Gzip, request, Some(1));
    assert first == Pack(StreamMessage(request, chunks, 0));
    if first.None? { return None; }
    var sent := [first.value];
    var nextSequence := 2;
    for index := 1 to |chunks| + 1
      invariant nextSequence == index + 1 && |sent| == index
      invariant forall k :: 0 <= k < index ==> Pack(StreamMessage(request, chunks, k)) == Some(sent[k])
    {
      var last := index == |chunks|;
      var flag := if last then LastNegativeSeq else PositiveSeq;
      var sequence := if last then -nextSequence else nextSequence;
      var frame := PackFrame(AudioOnlyRequest, flag, Raw, Uncompressed, chunks[index - 1], Some(sequence));
      assert frame == Pack(StreamMessage(request, chunks, index));
      if frame.None? { return None; }
      sent := sent + [frame.value];
      nextSequence := nextSequence + 1;
    }
    return Some(sent);
  }

  function Payloads(ms: seq<Message>): bytes {
    if ms == [] then [] else ms[0].payload + Payloads(ms[1..])
  }

  // Chunks of whole samples, when the data has whole samples.
  lemma {:induction false} ChunksAligned(pcm: bytes, size: nat, unit: nat)
    requires size >= 1 && unit >= 1 && size % unit == 0 && |pcm| % unit == 0
    ensures forall i :: 0 <= i < |Chunks(pcm, size)| ==> |Chunks(pcm, size)[i]| % unit == 0
    decreases |pcm|
  {
    if |pcm| > size {
      assert |pcm[size..]| % unit == 0 by { MultiplesSubtract(|pcm|, size, unit); }
      ChunksAligned(pcm[size..], size, unit);
      assert Chunks(pcm, size)[1..] == Chunks(pcm[size..], size);
    }
  }

  lemma MultiplesSubtract(a: nat, b: nat, unit: nat)
    requires unit >= 1 && b <= a && a % unit == 0 && b % unit == 0
    ensures (a - b) % unit == 0
  {
    assert a == unit * (a / unit) && b == unit * (b / unit);
    assert a - b == unit * (a / unit - b / unit);
    ProductDivides(a / unit - b / unit, unit);
  }

  lemma ProductDivides(k: int, unit: nat)
    requires unit >= 1
    ensures (unit * k) % unit == 0
  {
    var q, r := (unit * k) / unit, (unit * k) % unit;
    var d := k - q;
    assert unit * k == unit * q + r;
    assert unit * d == unit * k - unit * q;
    SmallMultiple(unit, d, r);
  }

  lemma SmallMultiple(unit: nat, d: int, r: nat)
    requires unit * d == r < unit
    ensures r == 0
  {
    if d >= 1 { AtLeastOnce(unit, d); }
  }

  lemma AtLeastOnce(unit: nat, d: nat)
    requires d >= 1
    ensures unit * d >= unit
  {
    assert unit * d == unit * (d - 1) + unit;
  }

  // A recording in the configured format is cut without loss into chunks of whole samples.
  lemma WaveIsCut(w: Wave, f: Format)
    requires PcmChunks(w, f).Some? && |w.pcm| % (2 * w.channels) == 0
    ensures var chunks := PcmChunks(w, f).value;
      && Joined(chunks) == w.pcm
      && forall i :: 0 <= i < |chunks| ==> 1 <= |chunks[i]| <= FrameSize(f) && |chunks[i]| % (2 * w.channels) == 0
  {
    var samples := f.rate * f.chunkMs / 1000;
    var k, unit := if samples > 1 then samples else 1, 2 * w.channels;
    assert FrameSize(f) == k * f.channels * 2 == unit * k;
    assert unit >= 1;
    ProductDivides(k, unit);
    ChunksJoin(w.pcm, FrameSize(f));
    ChunksAligned(w.pcm, FrameSize(f), unit);
  }

  // A recording is accepted exactly in the configured format, with 16-bit samples.  Every
  // chunk but the last holds the samples of the configured time, at least one a channel.
  lemma WaveAcceptedIff(w: Wave, f: Format) returns (samples: nat)
    ensures PcmChunks(w, f).Some? <==>
      w.rate == f.rate && w.channels == f.channels && w.channels > 0 && f.bits == 16 && w.width == 2
    ensures if f.rate * f.chunkMs < 2000 then samples == 1
            else samples * 1000 <= f.rate * f.chunkMs < (samples + 1) * 1000
    ensures PcmChunks(w, f).Some? ==>
      forall i :: 0 <= i < |PcmChunks(w, f).value| - 1 ==> |PcmChunks(w, f).value[i]| == samples * (2 * w.channels)
  {
    var n := f.rate * f.chunkMs / 1000;
    samples := if n > 1 then n else 1;
    assert FrameSize(f) == samples * f.channels * (f.bits / 8);
    SizeIs(samples, f.channels, f.bits / 8);
    if PcmChunks(w, f).Some? { ChunksJoin(w.pcm, FrameSize(f)); }
  }

  lemma SizeIs(samples: nat, channels: nat, width: nat)
    requires samples >= 1
    ensures samples * channels * 2 == samples * (2 * channels)
    ensures width == 2 ==> (samples * channels * width != 0 <==> channels > 0)
  {
  }

  lemma {:induction false} PayloadsJoin(ms: seq<Message>, chunks: seq<bytes>)
    requires |ms| == |chunks| && forall i :: 0 <= i < |ms| ==> ms[i].payload == chunks[i]
    ensures Payloads(ms) == Joined(chunks)
  {
    if ms != [] { PayloadsJoin(ms[1..], chunks[1..]); }
  }

  // For every nonempty recording that can be sent: parsing the frames gives back the PCM
  // data, the absolute sequence numbers count from 1, and only the last frame is
  // negative and flagged as last.
  lemma StreamSurvives(request: bytes, pcm: bytes, size: nat, frames: seq<bytes>, ms: seq<Message>)
    requires size >= 1 && pcm != []
    requires var chunks := Chunks(pcm, size);
      && |frames| == |ms| == |chunks| + 1
      && forall k :: 0 <= k <= |chunks| ==>
           Pack(StreamMessage(request, chunks, k)) == Some(frames[k]) && Parse(frames[k]) == Some(ms[k])
    ensures |ms| >= 2 && ms[0].payload == request && Payloads(ms[1..]) == pcm
    ensures forall k :: 0 <= k < |ms| ==>
      && ms[k].sequence == Some(if k == |ms| - 1 then -(k + 1) else k + 1)
      && (ms[k].flag == LastNegativeSeq <==> k == |ms| - 1)
      && (if k == 0 then ms[k].msgType == FullClientRequest && ms[k].serialization == Json && ms[k].compression == Gzip
          else ms[k].msgType == AudioOnlyRequest && ms[k].serialization == Raw && ms[k].compression == Uncompressed)
  {
    var chunks := Chunks(pcm, size);
    ChunksJoin(pcm, size);
    forall k | 0 <= k < |ms| ensures ms[k] == StreamMessage(request, chunks, k) {
      StreamParses(request, chunks, k);
    }
    PayloadsJoin(ms[1..], chunks);
  }

  // Every frame of a stream parses, so the messages of StreamSurvives exist.
  lemma StreamParses(request: bytes, chunks: seq<bytes>, k: nat)
    requires k <= |chunks| && Pack(StreamMessage(request, chunks, k)).Some?
    ensures Parse(Pack(StreamMessage(request, chunks, k)).value) == Some(StreamMessage(request, chunks, k))
  {
    FrameRoundTripIff(StreamMessage(request, chunks, k));
  }
}
