/** Speech synthesis messages. */
module Tts {
  import opened Wrappers
  import opened ServoWords
  import opened Wire

  datatype MsgType = FullClientRequest | FullServerResponse | AudioOnlyServer | ErrorMessage
  datatype MsgFlag = NoSeq | WithEvent

  const START_CONNECTION := 1
  const FINISH_CONNECTION := 2
  const CONNECTION_STARTED := 50

  // The episode id is given as its UTF-8 bytes.
  datatype Message = Message(msgType: MsgType, flag: MsgFlag, event: int, episode: bytes, payload: bytes)

  function TypeCode(t: MsgType): byte {
    match t case FullClientRequest => 1 case FullServerResponse => 9 case AudioOnlyServer => 11 case ErrorMessage => 15
  }

  function TypeOf(code: int): Option<MsgType> {
    match code
    case 1 => Some(FullClientRequest)
    case 9 => Some(FullServerResponse)
    case 11 => Some(AudioOnlyServer)
    case 15 => Some(ErrorMessage)
    case _ => None
  }

  function FlagCode(f: MsgFlag): byte { match f case NoSeq => 0 case WithEvent => 4 }

  function FlagOf(code: int): Option<MsgFlag> {
    match code case 0 => Some(NoSeq) case 4 => Some(WithEvent) case _ => None
  }

  // Events about the connection carry no episode id.
  predicate AboutConnection(event: int) {
    event == START_CONNECTION || event == FINISH_CONNECTION || event == CONNECTION_STARTED
  }

  // ---------------------------------------------------------------- writing

  function Header(m: Message): bytes { [0x11, TypeCode(m.msgType) * 16 + FlagCode(m.flag), 0x10, 0] }

  // The event number and the episode block between header and payload.
  function Middle(m: Message): Option<bytes> {
    if m.flag == NoSeq then Some([])
    else match PackI32(m.event)
      case None => None
      case Some(event) =>
        if AboutConnection(m.event) then Some(event)
        else match PackU32(|m.episode|)
          case None => None
          case Some(size) => Some(event + size + m.episode)
  }

  function Pack(m: Message): Option<bytes> {
    var size := PackU32(|m.payload|);
    if Middle(m).None? || size.None? then None else Some(Header(m) + Middle(m).value + size.value + m.payload)
  }

  method ToBytes(m: Message) returns (r: Option<bytes>)
    ensures r == Pack(m)
  {
    var buffer: bytes := [0x11, TypeCode(m.msgType) * 16 + FlagCode(m.flag), 0x10, 0];
    if m.flag == WithEvent {
      var event := PackI32(m.event);
      if event.None? { return None; }
      if AboutConnection(m.event) {
        buffer := buffer + event.value;
      } else {
        var size := PackU32(|m.episode|);
        if size.None? { return None; }
        buffer := buffer + (event.value + size.value + m.episode);
      }
    } else {
      assert buffer + [] == buffer;
    }
    var size := PackU32(|m.payload|);
    if size.None? { return None; }
    buffer := buffer + size.value;
    return Some(buffer + m.payload);
  }

  // ---------------------------------------------------------------- reading

  // Event, episode id and the offset of the payload's size; None where reading raises.
  function ReadMiddle(data: bytes, flag: MsgFlag): Option<(int, bytes, nat)> {
    if flag == NoSeq then Some((0, [], 4))
    else match ReadU32(data, 4)
      case None => None
      case Some(number) =>
        var event := Signed(number);
        if !AboutConnection(event) then
          match ReadU32(data, 8)
          case None => None
          case Some(size) => Some((event, Slice(data, 12, size), 12 + size))
        else if event == CONNECTION_STARTED && ReadU32(data, 8).Some? then
          Some((event, [], 12 + ReadU32(data, 8).value))
        else Some((event, [], 8))
  }

  function Parse(data: bytes): Option<Message> {
    if |data| < 8 then None
    else
      var msgType, flag := TypeOf(data[1] as int / 16), FlagOf(data[1] as int % 16);
      if msgType.None? || flag.None? then None
      else match ReadMiddle(data, flag.value)
        case None => None
        case Some((event, episode, at)) =>
          match ReadU32(data, at)
          case None => None
          case Some(size) => Some(Message(msgType.value, flag.value, event, episode, Slice(data, at + 4, size)))
  }

  method FromBytes(data: bytes) returns (r: Option<Message>)
    ensures r == Parse(data)
  {
    if |data| < 8 { return None; }
    var msgType, flag := TypeOf(data[1] as int / 16), FlagOf(data[1] as int % 16);
    if msgType.None? || flag.None? { return None; }
    var offset := 4;
    var event := 0;
    var episode: bytes := [];
    if flag.value == WithEvent {
      var number := ReadU32(data, offset);
      if number.None? { return None; }
      event := Signed(number.value);
      offset := offset + 4;
      if !AboutConnection(event) {
        var size := ReadU32(data, offset);
        if size.None? { return None; }
        offset := offset + 4;
        episode := Slice(data, offset, size.value);
        offset := offset + size.value;
      } else if event == CONNECTION_STARTED && |data| >= offset + 4 {
        var size := ReadU32(data, offset);
        offset := offset + 4 + size.value;
      }
    }
    var size := ReadU32(data, offset);
    if size.None? { return None; }
    offset := offset + 4;
    return Some(Message(msgType.value, flag.value, event, episode, Slice(data, offset, size.value)));
  }

  // ---------------------------------------------------------------- round trip

  // Nothing is set that the format does not carry, and the event is not the one whose
  // reader skips an id that the writer never writes.
  predicate Faithful(m: Message) {
    if m.flag == NoSeq then m.event == 0 && m.episode == []
    else m.event != 50 && (m.event == 1 || m.event == 2 ==> m.episode == [])
  }

  lemma ReadMiddleBack(m: Message, rest: bytes)
    requires Middle(m).Some?
    requires m.flag == WithEvent ==> m.event != CONNECTION_STARTED
    ensures var carried := m.flag == WithEvent && !AboutConnection(m.event);
      ReadMiddle(Header(m) + Middle(m).value + rest, m.flag)
        == Some((if m.flag == NoSeq then 0 else m.event, if carried then m.episode else [], 4 + |Middle(m).value|))
  {
    var data := Header(m) + Middle(m).value + rest;
    if m.flag == WithEvent {
      var event := PackI32(m.event).value;
      if AboutConnection(m.event) {
        ReadPacked(Header(m), event, rest);
      } else {
        var size := PackU32(|m.episode|).value;
        ReadPacked(Header(m), event, size + m.episode + rest);
        assert data == Header(m) + event + (size + m.episode + rest);
        ReadPacked(Header(m) + event, size, m.episode + rest);
        assert data == (Header(m) + event) + size + (m.episode + rest);
        assert data[12..12 + |m.episode|] == m.episode;
      }
    }
  }

  lemma StartedNeverReads(m: Message)
    requires Pack(m).Some? && m.flag == WithEvent && m.event == CONNECTION_STARTED
    ensures Parse(Pack(m).value).None?
  {
    var data, event, size := Pack(m).value, PackI32(m.event).value, PackU32(|m.payload|).value;
    ReadPacked(Header(m), event, size + m.payload);
    assert data == Header(m) + event + (size + m.payload);
    ReadPacked(Header(m) + event, size, m.payload);
    assert data == (Header(m) + event) + size + m.payload;
  }

  lemma TailReads(before: bytes, payload: bytes)
    requires |payload| < WORD
    ensures var data := before + PackU32(|payload|).value + payload;
      && ReadU32(data, |before|) == Some(|payload|)
      && Slice(data, |before| + 4, |payload|) == payload
  {
    var size := PackU32(|payload|).value;
    var data := before + size + payload;
    ReadPacked(before, size, payload);
    assert data[|before| + 4..|before| + 4 + |payload|] == payload;
  }

  // A message that can be written reads back as itself exactly when it is faithful; a
  // connection-started message can never be read back at all.
  lemma MessageRoundTripIff(m: Message)
    requires Pack(m).Some?
    ensures Parse(Pack(m).value) == Some(m) <==> Faithful(m)
    ensures m.flag == WithEvent && m.event == CONNECTION_STARTED ==> Parse(Pack(m).value).None?
  {
    if m.flag == WithEvent && m.event == CONNECTION_STARTED {
      StartedNeverReads(m);
    } else {
      var data, size := Pack(m).value, PackU32(|m.payload|).value;
      assert TypeOf(data[1] as int / 16) == Some(m.msgType) && FlagOf(data[1] as int % 16) == Some(m.flag) by {
        assert data[1] == Header(m)[1];
      }
      ReadMiddleBack(m, size + m.payload);
      assert data == Header(m) + Middle(m).value + (size + m.payload);
      TailReads(Header(m) + Middle(m).value, m.payload);
    }
  }
}
