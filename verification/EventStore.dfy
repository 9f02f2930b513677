/** The bounded event file and the reader that walks it backwards in blocks. */
module EventStore {
  import opened Wrappers
  import opened Lists
  import opened Text
  import Numbering

  // ---------------------------------------------------------------- reading the tail

  lemma {:induction false} BreaksAdd(a: string, b: string)
    ensures Breaks(a + b) == Breaks(a) + Breaks(b)
  {
    if a == "" {
      assert a + b == b;
    } else {
      BreaksAdd(a[1..], b);
      assert (a + b)[1..] == a[1..] + b;
    }
  }

  lemma {:induction false} AtLeastBreaks(b: string)
    ensures |Lines(b)| >= Breaks(b)
    decreases |b|
  {
    var i := FirstBreak(b);
    NoBreaks(b[..i]);
    assert b == b[..i] + b[i..];
    BreaksAdd(b[..i], b[i..]);
    if i < |b| {
      AtLeastBreaks(b[i + 1..]);
      assert b[i..][1..] == b[i + 1..];
    }
  }

  lemma {:induction false} NoBreaks(s: string)
    requires NoBreak(s)
    ensures Breaks(s) == 0
  {
    if s != "" { NoBreaks(s[1..]); }
  }

  // `all` ends with `own`, apart from the first line of `own`.
  ghost predicate EndsLike<T>(all: seq<T>, own: seq<T>) {
    |all| >= |own| >= 1 && all[|all| - |own| + 1..] == own[1..]
  }

  lemma EndsLikeCons<T>(first: T, all: seq<T>, own: seq<T>)
    requires EndsLike(all, own)
    ensures EndsLike([first] + all, own)
  {
    assert ([first] + all)[|all| - |own| + 2..] == all[|all| - |own| + 1..];
  }

  // Text in front of `b` can only change the first line of `b`.
  lemma {:induction false} LinesBehind(a: string, b: string)
    requires b != ""
    ensures EndsLike(Lines(a + b), Lines(b))
    decreases |a|
  {
    var k := FirstBreak(a);
    if k < |a| {
      var rest := a[k + 1..];
      LinesBehind(rest, b);
      assert a + b == a[..k] + "\n" + (rest + b);
      LinesCons(a[..k], rest + b);
      EndsLikeCons(a[..k], Lines(rest + b), Lines(b));
    } else {
      assert a == a[..k];
      LongerFirstLine(a, b);
    }
  }

  lemma LongerFirstLine(a: string, b: string)
    requires NoBreak(a) && b != ""
    ensures EndsLike(Lines(a + b), Lines(b))
  {
    var i := FirstBreak(b);
    NoBreakJoin(a, b[..i]);
    if i < |b| {
      SplitAtBreak("", b, i);
      SplitAtBreak(a, b, i);
      LinesCons(b[..i], b[i + 1..]);
      LinesCons(a + b[..i], b[i + 1..]);
      EndsLikeHeads(a + b[..i], b[..i], Lines(b[i + 1..]));
    } else {
      assert b == b[..i];
      LinesSingle(b);
      LinesSingle(a + b);
    }
  }

  lemma SplitAtBreak(a: string, b: string, i: nat)
    requires i < |b| && b[i] == '\n'
    ensures a + b == a + b[..i] + "\n" + b[i + 1..]
    ensures a == "" ==> b == b[..i] + "\n" + b[i + 1..]
  {
  }

  lemma NoBreakJoin(a: string, b: string)
    requires NoBreak(a) && NoBreak(b)
    ensures NoBreak(a + b)
  {
  }

  lemma EndsLikeHeads<T>(longer: T, line: T, rest: seq<T>)
    ensures EndsLike([longer] + rest, [line] + rest)
  {
    assert ([longer] + rest)[1..] == rest == ([line] + rest)[1..];
  }

  // A suffix with more than `limit` newlines already holds the last `limit` lines.
  lemma TailInSuffix(file: string, position: nat, limit: nat)
    requires position <= |file| && limit >= 1 && Breaks(file[position..]) > limit
    ensures LastN(Lines(file), limit) == LastN(Lines(file[position..]), limit)
  {
    var a, b := file[..position], file[position..];
    assert file == a + b;
    LinesBehind(a, b);
    AtLeastBreaks(b);
    SameTail(Lines(file), Lines(b), limit);
  }

  lemma SameTail<T>(all: seq<T>, own: seq<T>, limit: nat)
    requires EndsLike(all, own) && |own| > limit
    ensures LastN(all, limit) == LastN(own, limit)
  {
    var k := |own| - 1 - limit;
    var tail := own[1..][k..];
    LastNUnique(all, limit, tail);
    LastNUnique(own, limit, tail);
  }

  // b"".join(reversed(chunks))
  function JoinReversed(chunks: seq<string>): string {
    if chunks == [] then "" else chunks[|chunks| - 1] + JoinReversed(chunks[..|chunks| - 1])
  }

  method TailLines(file: string, limit: int, blockSize: nat) returns (lines: seq<string>)
    requires blockSize >= 1
    ensures lines == if limit <= 0 then [] else LastN(Lines(file), limit)
  {
    if limit <= 0 {
      return [];
    }
    var chunks: seq<string> := [];
    var newlineCount := 0;
    var position := |file|;
    while position > 0 && newlineCount <= limit
      invariant 0 <= position <= |file|
      invariant JoinReversed(chunks) == file[position..]
      invariant newlineCount == Breaks(file[position..])
    {
      var size := if blockSize < position then blockSize else position;
      ghost var behind := file[position..];
      position := position - size;
      var chunk := file[position..position + size];
      assert file[position..] == chunk + behind;
      BreaksAdd(chunk, behind);
      assert (chunks + [chunk])[..|chunks|] == chunks;
      chunks := chunks + [chunk];
      newlineCount := newlineCount + Breaks(chunk);
    }
    var text := JoinReversed(chunks);
    if position == 0 {
      assert text == file;
    } else {
      TailInSuffix(file, position, limit);
    }
    lines := LastN(Lines(text), limit);
  }

  // ---------------------------------------------------------------- growing and cutting texts

  // The text does not end with a newline, so what is appended joins its last line.
  predicate Open(text: string) { text != "" && text[|text| - 1] != '\n' }

  // The lines after one more terminated line was appended.
  function AddLine(lines: seq<string>, open: bool, line: string): seq<string> {
    if open && lines != [] then lines[|lines| - 1 := lines[|lines| - 1] + line] else lines + [line]
  }

  lemma {:induction false} AppendLine(text: string, line: string)
    requires NoBreak(line)
    ensures Lines(text + line + "\n") == AddLine(Lines(text), Open(text), line)
    ensures Open(text) ==> Lines(text) != []
    decreases |text|
  {
    var i := FirstBreak(text);
    if i < |text| {
      var rest := text[i + 1..];
      AppendLine(rest, line);
      SplitAtBreak("", text, i);
      Regroup(text[..i], rest, line);
      LinesCons(text[..i], rest);
      LinesCons(text[..i], rest + line + "\n");
      AddLineCons(text[..i], Lines(rest), Open(rest), line);
      OpenTail(text, i);
    } else {
      assert text == text[..i];
      AppendToLine(text, line);
    }
  }

  lemma AppendToLine(text: string, line: string)
    requires NoBreak(text) && NoBreak(line)
    ensures Lines(text + line + "\n") == AddLine(Lines(text), Open(text), line)
    ensures Open(text) ==> Lines(text) != []
  {
    NoBreakJoin(text, line);
    LinesCons(text + line, "");
    assert text + line + "\n" == (text + line) + "\n" + "";
    if text == "" { assert text + line == line; } else { LinesSingle(text); }
  }

  lemma OpenTail(text: string, i: nat)
    requires i < |text| && text[i] == '\n'
    ensures Open(text) <==> Open(text[i + 1..])
  {
  }

  lemma Regroup(a: string, b: string, c: string)
    ensures a + "\n" + b + c + "\n" == a + "\n" + (b + c + "\n")
  {
  }

  lemma AddLineCons(first: string, lines: seq<string>, open: bool, line: string)
    requires open ==> lines != []
    ensures [first] + AddLine(lines, open, line) == AddLine([first] + lines, open, line)
  {
  }

  lemma LastOfAdded(all: seq<string>, kept: nat, open: bool, line: string)
    requires kept <= |all| && (open ==> kept >= 1)
    ensures AddLine(LastN(all, kept), open, line) == LastN(AddLine(all, open, line), if open then kept else kept + 1)
  {
    LastNUnique(AddLine(all, open, line), if open then kept else kept + 1, AddLine(LastN(all, kept), open, line));
  }

  lemma {:induction false} LinesHaveNoBreak(text: string)
    ensures forall l :: l in Lines(text) ==> NoBreak(l)
    decreases |text|
  {
    var i := FirstBreak(text);
    if i < |text| { LinesHaveNoBreak(text[i + 1..]); }
  }

  // The lines of the text are the last n lines of the history.
  predicate Ends(history: seq<string>, n: nat, text: string) {
    n <= |history| && Lines(text) == LastN(history, n)
  }

  lemma EndsLength(history: seq<string>, n: nat, text: string)
    requires Ends(history, n, text)
    ensures |Lines(text)| == n
  {
  }

  lemma EndsWhole(text: string)
    ensures Ends(Lines(text), |Lines(text)|, text)
  {
  }

  lemma FirstLine(line: string)
    requires NoBreak(line)
    ensures Ends([line], 1, line + "\n") && !Open(line + "\n")
  {
    LinesCons(line, "");
    assert line + "\n" + "" == line + "\n";
  }

  lemma EndsAfterAppend(history: seq<string>, kept: nat, text: string, line: string)
    requires Ends(history, kept, text) && NoBreak(line)
    ensures var more := if Open(text) then kept else kept + 1;
      && Ends(AddLine(history, Open(text), line), more, text + line + "\n")
      && |AddLine(history, Open(text), line)| - more == |history| - kept
    ensures !Open(text + line + "\n")
  {
    AppendLine(text, line);
    LastOfAdded(history, kept, Open(text), line);
  }

  // Nothing was ever written, or the file's lines are the last n of the history.
  predicate FileEnds(history: seq<string>, n: nat, file: Option<string>) {
    match file case None => history == [] && n == 0 case Some(text) => Ends(history, n, text)
  }

  predicate OpenFile(file: Option<string>) { file.Some? && Open(file.value) }

  // The text after one more record was appended to the file.
  function Grown(file: Option<string>, line: string): string {
    match file case None => line + "\n" case Some(text) => text + line + "\n"
  }

  lemma GrownFacts(history: seq<string>, kept: nat, file: Option<string>, line: string)
    requires FileEnds(history, kept, file) && NoBreak(line)
    ensures var open, text := OpenFile(file), Grown(file, line);
      var all, more := AddLine(history, open, line), if open then kept else kept + 1;
      && FileEnds(all, more, Some(text)) && !OpenFile(Some(text))
      && |all| - more == |history| - kept
  {
    match file {
      case None => FirstLine(line);
      case Some(text) => EndsAfterAppend(history, kept, text, line);
    }
  }

  lemma LastOfKept(history: seq<string>, kept: nat, text: string, n: nat)
    requires Ends(history, kept, text) && (n <= kept || kept == |history|)
    ensures LastN(Lines(text), n) == LastN(history, n)
  {
    LastNOfLastN(history, kept, n);
  }

  // A text with more than n lines is rewritten to its last n, all of them terminated.
  method CutTo(text: string, ghost history: seq<string>, ghost kept: nat, n: nat) returns (cut: Option<string>)
    requires Ends(history, kept, text)
    ensures cut.None? <==> kept <= n
    ensures cut.Some? ==> Ends(history, n, cut.value) && !Open(cut.value)
  {
    var lines := Lines(text);
    EndsLength(history, kept, text);
    if |lines| <= n {
      return None;
    }
    cut := Some(Unlines(LastN(lines, n)));
    CutText(text, history, kept, n);
  }

  lemma CutText(text: string, history: seq<string>, kept: nat, n: nat)
    requires Ends(history, kept, text) && n < kept
    ensures var cut := Unlines(LastN(Lines(text), n));
      Ends(history, n, cut) && !Open(cut)
  {
    var lines := LastN(Lines(text), n);
    LinesHaveNoBreak(text);
    LastNOfLastN(history, kept, n);
    LinesOfUnlines(lines, "");
    assert Unlines(lines) + "" == Unlines(lines) && lines + [] == lines;
    UnlinesClosed(lines);
  }

  lemma {:induction false} UnlinesClosed(lines: seq<string>)
    ensures !Open(Unlines(lines))
  {
    if lines != [] {
      var rest := Unlines(lines[1..]);
      UnlinesClosed(lines[1..]);
      assert Unlines(lines) == lines[0] + "\n" + rest;
    }
  }

  lemma LastNOfLastN<T>(s: seq<T>, kept: nat, n: nat)
    requires n <= kept || kept == |s|
    ensures LastN(LastN(s, kept), n) == LastN(s, n)
  {
    LastNUnique(s, n, LastN(LastN(s, kept), n));
  }

  // ---------------------------------------------------------------- events and lines

  // One-line JSON of an event (None when the encoder raises), and its reader.
  datatype Codec<!E> = Codec(enc: E -> Option<string>, dec: string -> Option<E>)

  ghost predicate Lawful<E(!new)>(c: Codec<E>) {
    forall e {:trigger c.enc(e)} :: c.enc(e).Some? ==>
      c.dec(c.enc(e).value) == Some(e) && NoBreak(c.enc(e).value) && !Blank(c.enc(e).value)
  }

  // Whatever the events are, some lawful codec encodes all that are given.
  lemma LawIsConsistent<E(!new)>(es: seq<E>)
    ensures exists c: Codec<E> :: Lawful(c) && Encodable(c, es)
  {
    var c := Codec(e => Numbering.Written(es, e), s => Numbering.Read(es, s));
    forall e | e in es
      ensures c.dec(c.enc(e).value) == Some(e) && NoBreak(c.enc(e).value) && !Blank(c.enc(e).value)
    {
      Numbering.WrittenReads(es, e);
    }
    assert Lawful(c) && Encodable(c, es);
  }

  predicate Encodable<E>(c: Codec<E>, es: seq<E>) { forall i :: 0 <= i < |es| ==> c.enc(es[i]).Some? }

  // The events on the given lines; blank lines and lines that do not decode have none.
  function Decoded<E>(c: Codec<E>, lines: seq<string>): seq<E> {
    if lines == [] then []
    else
      var l := lines[|lines| - 1];
      Decoded(c, lines[..|lines| - 1]) +
        (if Blank(l) then [] else match c.dec(l) case Some(e) => [e] case None => [])
  }

  function Nonblank(lines: seq<string>): (n: nat)
    ensures n <= |lines|
  {
    if lines == [] then 0
    else Nonblank(lines[..|lines| - 1]) + if Blank(lines[|lines| - 1]) then 0 else 1
  }

  function Encs<E>(c: Codec<E>, es: seq<E>): (r: seq<string>)
    requires Encodable(c, es)
    ensures |r| == |es| && forall i :: 0 <= i < |es| ==> r[i] == c.enc(es[i]).value
  {
    seq(|es|, i requires 0 <= i < |es| => c.enc(es[i]).value)
  }

  lemma {:induction false} DecodedEncs<E(!new)>(c: Codec<E>, es: seq<E>)
    requires Lawful(c) && Encodable(c, es)
    ensures Decoded(c, Encs(c, es)) == es && Nonblank(Encs(c, es)) == |es|
  {
    if es != [] {
      var n := |es| - 1;
      DecodedEncs(c, es[..n]);
      assert Encs(c, es)[..n] == Encs(c, es[..n]);
      assert Encs(c, es)[n] == c.enc(es[n]).value;
    }
  }

  // One line more or less, wherever it stands, makes a difference of its own event, if it
  // has one, and counts unless it is blank.  A line that does not decode hides no other.
  lemma {:induction false} EveryLineCounts<E(!new)>(c: Codec<E>, a: seq<string>, l: string, b: seq<string>)
    ensures Decoded(c, []) == [] && Nonblank([]) == 0
    ensures var blank := forall k :: 0 <= k < |l| ==> l[k] == ' ' || l[k] == '\t' || l[k] == '\r';
      && Decoded(c, a + [l] + b)
           == Decoded(c, a) + (if blank || c.dec(l).None? then [] else [c.dec(l).value]) + Decoded(c, b)
      && Nonblank(a + [l] + b) == Nonblank(a) + (if blank then 0 else 1) + Nonblank(b)
  {
    DecodedJoin(c, a + [l], b);
    DecodedJoin(c, a, [l]);
    assert [l][..0] == [];
  }

  lemma {:induction false} DecodedJoin<E(!new)>(c: Codec<E>, a: seq<string>, b: seq<string>)
    ensures Decoded(c, a + b) == Decoded(c, a) + Decoded(c, b) && Nonblank(a + b) == Nonblank(a) + Nonblank(b)
  {
    if b == [] {
      assert a + b == a && Decoded(c, a) + [] == Decoded(c, a);
    } else {
      var front, l := b[..|b| - 1], b[|b| - 1];
      DecodedJoin(c, a, front);
      assert (a + b)[..|a + b| - 1] == a + front && (a + b)[|a + b| - 1] == l;
      var event := if Blank(l) then [] else match c.dec(l) case Some(e) => [e] case None => [];
      Assoc(Decoded(c, a), Decoded(c, front), event);
    }
  }

  // In a history of well-formed records the last n lines hold the last n events.
  lemma LastEvents<E(!new)>(c: Codec<E>, es: seq<E>, n: nat)
    requires Lawful(c) && Encodable(c, es)
    ensures Decoded(c, LastN(Encs(c, es), n)) == LastN(es, n)
  {
    assert LastN(Encs(c, es), n) == Encs(c, LastN(es, n));
    DecodedEncs(c, LastN(es, n));
  }

  // ---------------------------------------------------------------- the bounded store

  class RuntimeEventStore<E(!new)> {
    const codec: Codec<E>
    const maxItems: int
    const trimEvery: int
    var file: Option<string>
    var writesSinceTrim: int
    ghost var history: seq<string>  // every line found at the start or appended since
    ghost var kept: nat             // how many of them are still in the file

    // The lines of the file are the last `kept` lines of the history.
    ghost predicate Suffix()
      reads this
    {
      (kept < |history| ==> kept >= maxItems) && FileEnds(history, kept, file)
    }

    // The file has an unterminated last line.
    predicate Unterminated()
      reads this`file
    {
      OpenFile(file)
    }

    ghost predicate Valid()
      reads this
    {
      && Lawful(codec) && maxItems >= 1 && trimEvery >= 1
      && 0 <= writesSinceTrim < trimEvery && kept <= maxItems + writesSinceTrim
      && Suffix()
    }

    // Any file may be found at the start, even one that is not newline-terminated.
    constructor (codec: Codec<E>, existing: Option<string>, maxItems: int, trimEvery: int)
      requires Lawful(codec)
      ensures Valid() && this.codec == codec
      ensures this.maxItems == (if maxItems > 1 then maxItems else 1)
      ensures this.trimEvery == (if trimEvery > 1 then trimEvery else 1)
      ensures history == match existing case Some(text) => Lines(text) case None => []
      ensures Unterminated() ==> file == existing
    {
      this.codec := codec;
      this.maxItems := if maxItems > 1 then maxItems else 1;
      this.trimEvery := if trimEvery > 1 then trimEvery else 1;
      file, writesSinceTrim := existing, 0;
      history := match existing case Some(text) => Lines(text) case None => [];
      kept := match existing case Some(text) => |Lines(text)| case None => 0;
      new;
      match existing {
        case Some(text) => EndsWhole(text);
        case None =>
      }
      Trim();
    }

    // Keeps the last maxItems lines of the file.
    method Trim()
      requires maxItems >= 1 && Suffix()
      modifies this`file, this`kept
      ensures Suffix() && kept <= maxItems
      ensures file == old(file) || (kept == maxItems && !Unterminated())
    {
      match file {
        case None =>
        case Some(text) =>
          var cut := CutTo(text, history, kept, maxItems);
          if cut.Some? {
            file, kept := cut, maxItems;
          }
      }
    }

    // The record becomes a line of its own, unless the file found at the start had an
    // unterminated last line, which it then joins.  An event that cannot be encoded
    // raises after the file was opened: nothing but an empty file may be new.
    method Append(event: E) returns (ok: bool)
      requires Valid()
      modifies this
      ensures Valid() && ok == codec.enc(event).Some?
      ensures ok ==> !Unterminated() && history == AddLine(old(history), old(Unterminated()), codec.enc(event).value)
      ensures !ok ==> history == old(history) && kept == old(kept)
                      && file == (if old(file).None? then Some("") else old(file))
    {
      match codec.enc(event) {
        case None =>
          MakeFile();
          return false;
        case Some(line) =>
          Write(line);
          CountWrite();
          return true;
      }
    }

    // open("a") makes an empty file where there is none.
    method MakeFile()
      requires Valid()
      modifies this`file
      ensures Valid() && file == (if old(file).None? then Some("") else old(file))
    {
      if file.None? {
        EndsWhole("");
        file := Some("");
      }
    }

    // Every trimEvery-th write trims the file.
    method CountWrite()
      requires Lawful(codec) && maxItems >= 1 && trimEvery >= 1 && Suffix()
      requires 0 <= writesSinceTrim < trimEvery && kept <= maxItems + writesSinceTrim + 1
      modifies this`file, this`kept, this`writesSinceTrim
      ensures Valid() && (old(Unterminated()) || !Unterminated())
    {
      writesSinceTrim := writesSinceTrim + 1;
      if writesSinceTrim >= trimEvery {
        Trim();
        writesSinceTrim := 0;
      }
    }

    method Write(line: string)
      requires Suffix() && NoBreak(line)
      modifies this`file, this`history, this`kept
      ensures Suffix() && !Unterminated()
      ensures history == AddLine(old(history), old(Unterminated()), line)
      ensures kept <= old(kept) + 1
    {
      GrownFacts(history, kept, file, line);
      ghost var open := Unterminated();
      file := Some(Grown(file, line));
      history, kept := AddLine(history, open, line), if open then kept else kept + 1;
    }

    // The events on the last lines of the whole history, as if nothing had been trimmed.
    method Recent(limit: int, blockSize: nat) returns (items: seq<E>)
      requires Valid() && blockSize >= 1
      ensures var n := if limit < 1 then 1 else if limit < maxItems then limit else maxItems;
              items == Decoded(codec, LastN(history, n))
    {
      items := [];
      match file {
        case None =>
        case Some(text) =>
          var capped := if limit < maxItems then limit else maxItems;
          var n := if capped > 1 then capped else 1;
          var lines := TailLines(text, n, blockSize);
          LastOfKept(history, kept, text, n);
          items := Payloads(lines);
      }
    }

    // Decodes every nonblank line, dropping what does not decode.
    method Payloads(lines: seq<string>) returns (items: seq<E>)
      ensures items == Decoded(codec, lines)
    {
      items := [];
      for i := 0 to |lines|
        invariant items == Decoded(codec, lines[..i])
      {
        assert lines[..i + 1][..i] == lines[..i];
        if !Blank(lines[i]) {
          match codec.dec(lines[i]) {
            case Some(payload) => items := items + [payload];
            case None =>
          }
        }
      }
      assert lines[..|lines|] == lines;
    }

    // The number of nonblank lines; between calls the file stays within its bound.
    method Count() returns (n: nat)
      requires Valid()
      ensures n == Nonblank(LastN(history, kept)) <= kept <= maxItems + trimEvery - 1
      ensures kept == |history| || maxItems <= kept < |history|
    {
      match file {
        case None => return 0;
        case Some(text) =>
          EndsLength(history, kept, text);
          n := CountNonblank(Lines(text));
      }
    }

    method CountNonblank(lines: seq<string>) returns (n: nat)
      ensures n == Nonblank(lines)
    {
      n := 0;
      for i := 0 to |lines|
        invariant n == Nonblank(lines[..i])
      {
        assert lines[..i + 1][..i] == lines[..i];
        if !Blank(lines[i]) { n := n + 1; }
      }
      assert lines[..|lines|] == lines;
    }
  }
}
