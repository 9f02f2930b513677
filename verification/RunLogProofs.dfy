/** Durability, idempotence and crash behaviour of the run log. */
module RunLogProofs {
  import opened Wrappers
  import opened Text
  import opened Lists
  import opened RunLog
  import Numbering

  // The assumptions about JSON have a model in which any given events are encodable.
  ghost function ListCodec(es: seq<SkillEvent>): Codec {
    Codec(e => Numbering.Written(es, e), s => Numbering.Read(es, s), _ => None)
  }

  lemma LawsAreConsistent(es: seq<SkillEvent>)
    ensures exists c: Codec :: Lawful(c) && forall i :: 0 <= i < |es| ==> c.enc(es[i]).Some?
  {
    ListCodecDecodes(es);
    ListCodecRefuses(es);
    var c := ListCodec(es);
    assert Lawful(c) && forall i :: 0 <= i < |es| ==> c.enc(es[i]).Some?;
  }

  lemma ListCodecDecodes(es: seq<SkillEvent>)
    ensures DecodesItself(ListCodec(es))
  {
    forall e | e in es
      ensures var s := Numbering.Written(es, e).value;
        Numbering.Read(es, s) == Some(e) && NoBreak(s) && !Blank(s) && s[0] == '{'
    {
      Numbering.WrittenReads(es, e);
    }
  }

  lemma ListCodecRefuses(es: seq<SkillEvent>)
    ensures RefusesPrefixes(ListCodec(es)) && RefusesGlued(ListCodec(es))
  {
    var c := ListCodec(es);
    forall e, k: nat | c.enc(e).Some? && k < |c.enc(e).value| ensures c.dec(c.enc(e).value[..k]).None? {
      Numbering.PrefixRefused(es, e, k);
    }
    forall a, b, k: nat | c.enc(a).Some? && c.enc(b).Some? && 0 < k <= |c.enc(b).value|
      ensures c.dec(c.enc(a).value + c.enc(b).value[..k]).None?
    {
      Numbering.GluedRefused(es, a, b, k);
    }
  }

  // ---------------------------------------------------------------- the representation

  predicate Encodable(c: Codec, es: seq<SkillEvent>) {
    forall i :: 0 <= i < |es| ==> c.enc(es[i]).Some?
  }

  predicate Increasing(es: seq<SkillEvent>) {
    forall i, j :: 0 <= i < j < |es| ==> es[i].sequence < es[j].sequence
  }

  function Encs(c: Codec, es: seq<SkillEvent>): (r: seq<string>)
    requires Encodable(c, es)
    ensures |r| == |es| && forall i :: 0 <= i < |es| ==> r[i] == c.enc(es[i]).value
  {
    seq(|es|, i requires 0 <= i < |es| => c.enc(es[i]).value)
  }

  function Render(c: Codec, es: seq<SkillEvent>): string
    requires Encodable(c, es)
  {
    Unlines(Encs(c, es))
  }

  // One line that does not decode, as a crash can leave it at the end of the file.
  ghost predicate Junk(c: Codec, line: string) { NoBreak(line) && !Blank(line) && c.dec(line).None? }

  // What may stand behind the complete records: nothing, or one such line.
  ghost predicate Tail(c: Codec, tail: string) {
    tail == "" || exists line :: Junk(c, line) && (tail == line || tail == line + "\n")
  }

  // The text holds exactly the events `es`, possibly followed by one corrupt line.
  ghost predicate Holds(c: Codec, text: string, es: seq<SkillEvent>) {
    && Encodable(c, es)
    && Increasing(es)
    && exists tail :: Tail(c, tail) && text == Render(c, es) + tail
  }

  // The text holds `es` and then `x`, whose newline is missing.
  ghost predicate HoldsLoose(c: Codec, text: string, es: seq<SkillEvent>, x: SkillEvent) {
    Encodable(c, es) && c.enc(x).Some? && Increasing(es + [x]) && text == Render(c, es) + c.enc(x).value
  }

  ghost predicate Represents(c: Codec, text: string, k: Kept) {
    if k.loose then k.events != [] && HoldsLoose(c, text, k.events[..|k.events| - 1], k.events[|k.events| - 1])
    else Holds(c, text, k.events)
  }

  // ---------------------------------------------------------------- reading back

  lemma RenderSnoc(c: Codec, es: seq<SkillEvent>, x: SkillEvent)
    requires Encodable(c, es) && c.enc(x).Some?
    ensures Encodable(c, es + [x]) && Render(c, es + [x]) == Render(c, es) + c.enc(x).value + "\n"
  {
    var line := c.enc(x).value;
    assert Encs(c, es + [x]) == Encs(c, es) + [line];
    UnlinesAppend(Encs(c, es), [line]);
    assert Unlines([line]) == line + "\n";
    assert Render(c, es) + (line + "\n") == Render(c, es) + line + "\n";
  }

  lemma ReadOne(c: Codec, line: string, rest: seq<string>, no: nat)
    requires c.dec(line).Some? && !Blank(line)
    ensures ReadFrom(c, Records([line] + rest, no))
         == Prepend([c.dec(line).value], [line], ReadFrom(c, Records(rest, no + 1)))
  {
    var lines := [line] + rest;
    assert lines[1..] == rest;
    assert Records(lines, no)[1..] == Records(rest, no + 1);
  }

  lemma PrependTwice(a: seq<SkillEvent>, b: seq<SkillEvent>, p: seq<string>, q: seq<string>, r: Reading)
    ensures Prepend(a, p, Prepend(b, q, r)) == Prepend(a + b, p + q, r)
  {
    if r.Events? {
      assert a + (b + r.events) == a + b + r.events && p + (q + r.lines) == p + q + r.lines;
    }
  }

  lemma {:induction false} ReadDecoded(c: Codec, es: seq<SkillEvent>, lines: seq<string>, rest: seq<string>, no: nat)
    requires |lines| == |es|
    requires forall i :: 0 <= i < |es| ==> c.dec(lines[i]) == Some(es[i]) && !Blank(lines[i])
    ensures ReadFrom(c, Records(lines + rest, no)) == Prepend(es, lines, ReadFrom(c, Records(rest, no + |es|)))
    decreases |es|
  {
    var r := ReadFrom(c, Records(rest, no + |es|));
    if es == [] {
      assert lines + rest == rest;
      PrependNothing(r);
    } else {
      FirstOfJoin(lines, rest);
      ReadOne(c, lines[0], lines[1..] + rest, no);
      ReadDecoded(c, es[1..], lines[1..], rest, no + 1);
      PrependFirst(es, lines, r);
    }
  }

  lemma PrependNothing(r: Reading)
    ensures Prepend([], [], r) == r
  {
    if r.Events? { assert [] + r.events == r.events && [] + r.lines == r.lines; }
  }

  lemma PrependFirst(es: seq<SkillEvent>, lines: seq<string>, r: Reading)
    requires es != [] && |lines| == |es|
    ensures Prepend([es[0]], [lines[0]], Prepend(es[1..], lines[1..], r)) == Prepend(es, lines, r)
  {
    PrependTwice([es[0]], es[1..], [lines[0]], lines[1..], r);
    assert [es[0]] + es[1..] == es && [lines[0]] + lines[1..] == lines;
  }

  lemma ReadPrefix(c: Codec, es: seq<SkillEvent>, rest: seq<string>, no: nat)
    requires Lawful(c) && Encodable(c, es)
    ensures ReadFrom(c, Records(Encs(c, es) + rest, no))
         == Prepend(es, Encs(c, es), ReadFrom(c, Records(rest, no + |es|)))
  {
    ReadDecoded(c, es, Encs(c, es), rest, no);
  }

  // Reading a rendered log followed by an unterminated tail that is not blank.
  lemma ReadRendered(c: Codec, es: seq<SkillEvent>, tail: string)
    requires Lawful(c) && Encodable(c, es) && NoBreak(tail) && (tail == "" || !Blank(tail))
    ensures ReadText(c, Render(c, es) + tail)
         == if tail == "" then Events(es, Encs(c, es), false)
            else match c.dec(tail)
                 case None => Events(es, Encs(c, es), true)
                 case Some(e) => Events(es + [e], Encs(c, es) + [tail], false)
  {
    EncsAreLines(c, es);
    LinesOfUnlines(Encs(c, es), tail);
    ReadPrefix(c, es, if tail == "" then [] else [tail], 1);
    if tail == "" { NothingPrepended(es, Encs(c, es), false); } else { ReadLast(c, es, tail); }
  }

  lemma EncsAreLines(c: Codec, es: seq<SkillEvent>)
    requires Lawful(c) && Encodable(c, es)
    ensures forall l :: l in Encs(c, es) ==> NoBreak(l)
  {
    var lines := Encs(c, es);
    forall l | l in lines ensures NoBreak(l) {
      var i :| 0 <= i < |lines| && lines[i] == l;
      assert c.enc(es[i]).Some?;
    }
  }

  lemma NothingPrepended(es: seq<SkillEvent>, lines: seq<string>, torn: bool)
    ensures Prepend(es, lines, Events([], [], torn)) == Events(es, lines, torn)
  {
    assert es + [] == es && lines + [] == lines;
  }

  // The unterminated last line, if it is not blank, behind complete records.
  lemma ReadLast(c: Codec, es: seq<SkillEvent>, tail: string)
    requires Encodable(c, es) && tail != "" && !Blank(tail)
    ensures Prepend(es, Encs(c, es), ReadFrom(c, Records([tail], 1 + |es|)))
         == match c.dec(tail)
            case None => Events(es, Encs(c, es), true)
            case Some(e) => Events(es + [e], Encs(c, es) + [tail], false)
  {
    var rec := Record(1 + |es|, tail);
    assert Records([tail], 1 + |es|) == [rec];
    assert ReadFrom(c, [rec][1..]) == Events([], [], false);
    NothingPrepended(es, Encs(c, es), true);
  }

  // A corrupt last line with its newline reads like one without.
  lemma ReadClosedJunk(c: Codec, es: seq<SkillEvent>, line: string)
    requires Lawful(c) && Encodable(c, es) && Junk(c, line)
    ensures ReadText(c, Render(c, es) + (line + "\n")) == ReadText(c, Render(c, es) + line)
  {
    var lines := Encs(c, es);
    forall l | l in lines + [line] ensures NoBreak(l) {
      if l in lines {
        var i :| 0 <= i < |lines| && lines[i] == l;
        assert c.enc(es[i]).Some?;
      }
    }
    UnlinesAppend(lines, [line]);
    assert Unlines([line]) == line + "\n";
    assert Render(c, es) + (line + "\n") == Unlines(lines + [line]) + "";
    assert line != "";
    LinesOfUnlines(lines + [line], "");
    LinesOfUnlines(lines, line);
    assert lines + [line] + [] == lines + [line];
  }

  // What the code sees of a text that holds `es`.
  lemma ReadHeld(c: Codec, text: string, es: seq<SkillEvent>)
    requires Lawful(c) && Holds(c, text, es)
    ensures ReadText(c, text).Events? && ReadText(c, text).events == es == Recovered(c, text)
    ensures Repaired(text, ReadText(c, text)) == Render(c, es)
    ensures !LooseText(c, text)
  {
    var tail :| Tail(c, tail) && text == Render(c, es) + tail;
    if tail == "" {
      ReadRendered(c, es, tail);
      assert text == Render(c, es);
      RenderEnds(c, es);
    } else {
      var line :| Junk(c, line) && (tail == line || tail == line + "\n");
      ReadRendered(c, es, line);
      if tail == line + "\n" { ReadClosedJunk(c, es, line); }
    }
  }

  lemma RenderEnds(c: Codec, es: seq<SkillEvent>)
    requires Encodable(c, es)
    ensures Render(c, es) != "" ==> Render(c, es)[|Render(c, es)| - 1] == '\n'
  {
    if es != [] {
      var front, last := es[..|es| - 1], es[|es| - 1];
      assert es == front + [last];
      RenderSnoc(c, front, last);
    }
  }

  // A loose record is read like any other, and nothing is repaired.
  lemma ReadLoose(c: Codec, text: string, es: seq<SkillEvent>, x: SkillEvent)
    requires Lawful(c) && HoldsLoose(c, text, es, x)
    ensures ReadText(c, text).Events? && ReadText(c, text).events == es + [x] == Recovered(c, text)
    ensures Repaired(text, ReadText(c, text)) == text && LooseText(c, text)
  {
    assert (es + [x])[|es|] == x;
    ReadRendered(c, es, c.enc(x).value);
    var line := c.enc(x).value;
    assert text[|text| - 1] == line[|line| - 1];
  }

  lemma ReadKept(c: Codec, text: string, k: Kept)
    requires Lawful(c) && Represents(c, text, k)
    ensures ReadText(c, text).Events? && ReadText(c, text).events == k.events == Recovered(c, text)
    ensures LooseText(c, text) <==> k.loose
  {
    if k.loose {
      var front, x := k.events[..|k.events| - 1], k.events[|k.events| - 1];
      assert k.events == front + [x];
      ReadLoose(c, text, front, x);
    } else {
      ReadHeld(c, text, k.events);
    }
  }

  lemma HoldsRendered(c: Codec, es: seq<SkillEvent>)
    requires Encodable(c, es) && Increasing(es)
    ensures Holds(c, Render(c, es), es)
  {
    assert Tail(c, "") && Render(c, es) == Render(c, es) + "";
  }

  // ---------------------------------------------------------------- one step

  lemma PrepareKeepsSequence(cfg: Config, e: SkillEvent, w: World)
    requires Prepare(cfg, e, w).Write?
    ensures var a := Prepare(cfg, e, w);
            a.stored.sequence == e.sequence && cfg.codec.enc(a.stored) == Some(a.line)
            && (a.stored.result.Some? <==> e.result.Some?)
  {
  }

  lemma SnocHolds(c: Codec, es: seq<SkillEvent>, x: SkillEvent)
    requires Encodable(c, es) && Increasing(es) && c.enc(x).Some? && Fresh(es, x)
    ensures Holds(c, Render(c, es) + c.enc(x).value + "\n", es + [x])
  {
    RenderSnoc(c, es, x);
    HoldsRendered(c, es + [x]);
  }

  lemma JunkHolds(c: Codec, es: seq<SkillEvent>, line: string)
    requires Encodable(c, es) && Increasing(es) && Junk(c, line)
    ensures Holds(c, Render(c, es) + line, es) && Holds(c, Render(c, es) + (line + "\n"), es)
  {
    assert Tail(c, line) && Tail(c, line + "\n");
  }

  lemma AppendStep(cfg: Config, dir: RunDir, es: seq<SkillEvent>, e: SkillEvent, w: World)
    requires Lawful(cfg.codec) && Holds(cfg.codec, dir.log, es)
    ensures var r := AppendTo(cfg, dir, e, w);
      && Holds(cfg.codec, r.dir.log, KeptStep(cfg, Kept(es, false), Append(e, w)).events)
      && (Fresh(es, e) && Prepare(cfg, e, w).Write? <==>
            Fresh(Recovered(cfg.codec, dir.log), e) && r.answer.Ok?)
      && (Fresh(es, e) && r.answer.Ok? ==> Prepare(cfg, e, w).Write? && r.answer.value == Prepare(cfg, e, w).stored)
  {
    ReadHeld(cfg.codec, dir.log, es);
    HoldsRendered(cfg.codec, es);
    if Fresh(es, e) && Prepare(cfg, e, w).Write? {
      PrepareKeepsSequence(cfg, e, w);
      SnocHolds(cfg.codec, es, Prepare(cfg, e, w).stored);
    }
  }

  // What the file holds after `landed` characters of a record and its newline reached it.
  lemma CutRecord(cfg: Config, es: seq<SkillEvent>, e: SkillEvent, w: World, landed: nat)
    requires Lawful(cfg.codec) && Encodable(cfg.codec, es) && Increasing(es) && Fresh(es, e)
    requires Prepare(cfg, e, w).Write?
    ensures var a := Prepare(cfg, e, w);
      Represents(cfg.codec, Render(cfg.codec, es) + (if landed <= |a.line| then a.line[..landed] else a.line + "\n"),
                 Partly(Kept(es, false), a, landed))
  {
    PrepareKeepsSequence(cfg, e, w);
    var c, x, line := cfg.codec, Prepare(cfg, e, w).stored, Prepare(cfg, e, w).line;
    if landed > |line| {
      SnocHolds(c, es, x);
      assert Render(c, es) + line + "\n" == Render(c, es) + (line + "\n");
    } else if landed == |line| {
      assert line[..landed] == line;
      assert (es + [x])[..|es|] == es && (es + [x])[|es|] == x;
    } else if landed == 0 {
      HoldsRendered(c, es);
      assert Render(c, es) + line[..0] == Render(c, es);
    } else {
      PrefixIsJunk(c, x, landed);
      JunkHolds(c, es, line[..landed]);
    }
  }

  lemma PrefixIsJunk(c: Codec, x: SkillEvent, k: nat)
    requires Lawful(c) && c.enc(x).Some? && 0 < k < |c.enc(x).value|
    ensures Junk(c, c.enc(x).value[..k])
  {
    var line := c.enc(x).value;
    var part := line[..k];
    assert part[0] == line[0] && !Space(part[0]);
    assert forall i :: 0 <= i < |part| ==> part[i] == line[i];
  }

  // Any character of a second record behind a loose one makes both unreadable.
  lemma GluedIsJunk(c: Codec, x: SkillEvent, y: SkillEvent, k: nat)
    requires Lawful(c) && c.enc(x).Some? && c.enc(y).Some? && 0 < k <= |c.enc(y).value|
    ensures Junk(c, c.enc(x).value + c.enc(y).value[..k])
  {
    var a, b := c.enc(x).value, c.enc(y).value;
    var glued := a + b[..k];
    assert glued[0] == a[0] && !Space(glued[0]);
    assert forall i :: 0 <= i < |glued| ==> glued[i] == if i < |a| then a[i] else b[i - |a|];
  }

  lemma CrashStep(cfg: Config, dir: RunDir, es: seq<SkillEvent>, e: SkillEvent, w: World, cut: Cut)
    requires Lawful(cfg.codec) && Holds(cfg.codec, dir.log, es)
    ensures Represents(cfg.codec, CrashIn(cfg, dir, e, w, cut).log, KeptStep(cfg, Kept(es, false), Crash(e, w, cut)))
  {
    ReadHeld(cfg.codec, dir.log, es);
    CrashText(cfg, dir, e, w, cut);
    if cut.ResultWritten? {
      HoldsRendered(cfg.codec, es);
      AppendStep(cfg, dir, es, e, w);
    } else if cut.Writing? {
      CrashWriting(cfg, dir, es, e, w, cut.landed);
    }
  }

  lemma CrashWriting(cfg: Config, dir: RunDir, es: seq<SkillEvent>, e: SkillEvent, w: World, landed: nat)
    requires Lawful(cfg.codec) && Holds(cfg.codec, dir.log, es)
    ensures Represents(cfg.codec, CrashIn(cfg, dir, e, w, Writing(landed)).log,
                       KeptStep(cfg, Kept(es, false), Crash(e, w, Writing(landed))))
  {
    ReadHeld(cfg.codec, dir.log, es);
    CrashText(cfg, dir, e, w, Writing(landed));
    if Fresh(es, e) && Prepare(cfg, e, w).Write? {
      CutRecord(cfg, es, e, w, landed);
    } else {
      HoldsRendered(cfg.codec, es);
    }
  }

  // The text after a crash, by where the crash came.
  lemma CrashText(cfg: Config, dir: RunDir, e: SkillEvent, w: World, cut: Cut)
    requires ReadText(cfg.codec, dir.log).Events?
    ensures var base := Repaired(dir.log, ReadText(cfg.codec, dir.log));
      var writes := Fresh(Recovered(cfg.codec, dir.log), e) && Prepare(cfg, e, w).Write?;
      CrashIn(cfg, dir, e, w, cut).log ==
        if cut.BeforeRepair? then dir.log
        else if !writes then base
        else if cut.ResultWritten? then AppendTo(cfg, dir, e, w).dir.log
        else base + (if cut.landed <= |Prepare(cfg, e, w).line| then Prepare(cfg, e, w).line[..cut.landed]
                     else Prepare(cfg, e, w).line + "\n")
  {
  }

  // The text after an append.
  lemma AppendText(cfg: Config, dir: RunDir, e: SkillEvent, w: World)
    requires ReadText(cfg.codec, dir.log).Events?
    ensures var base := Repaired(dir.log, ReadText(cfg.codec, dir.log));
      AppendTo(cfg, dir, e, w).dir.log ==
        if Fresh(Recovered(cfg.codec, dir.log), e) && Prepare(cfg, e, w).Write?
        then base + Prepare(cfg, e, w).line + "\n" else base
  {
  }

  // A step on a log whose last record is loose.
  lemma LooseStep(cfg: Config, dir: RunDir, es: seq<SkillEvent>, x: SkillEvent, step: Step)
    requires Lawful(cfg.codec) && HoldsLoose(cfg.codec, dir.log, es, x)
    ensures Represents(cfg.codec, StepDir(cfg, dir, step).log, KeptStep(cfg, Kept(es + [x], true), step))
  {
    LooseStays(cfg.codec, dir.log, es, x);
    match step {
      case Append(e, w) => LooseAppend(cfg, dir, es, x, e, w);
      case Crash(e, w, cut) => LooseCrash(cfg, dir, es, x, e, w, cut);
      case Read =>
    }
  }

  lemma LooseStays(c: Codec, text: string, es: seq<SkillEvent>, x: SkillEvent)
    requires HoldsLoose(c, text, es, x)
    ensures Represents(c, text, Kept(es + [x], true))
    ensures Spoiled(Kept(es + [x], true)) == Kept(es, false)
  {
    assert (es + [x])[..|es|] == es && (es + [x])[|es|] == x;
  }

  lemma LooseAppend(cfg: Config, dir: RunDir, es: seq<SkillEvent>, x: SkillEvent, e: SkillEvent, w: World)
    requires Lawful(cfg.codec) && HoldsLoose(cfg.codec, dir.log, es, x)
    ensures Represents(cfg.codec, AppendTo(cfg, dir, e, w).dir.log, KeptStep(cfg, Kept(es + [x], true), Append(e, w)))
  {
    ReadLoose(cfg.codec, dir.log, es, x);
    LooseStays(cfg.codec, dir.log, es, x);
    AppendText(cfg, dir, e, w);
    if Fresh(es + [x], e) && Prepare(cfg, e, w).Write? {
      PrepareKeepsSequence(cfg, e, w);
      LooseGlued(cfg.codec, dir.log, es, x, Prepare(cfg, e, w).stored, |Prepare(cfg, e, w).line|);
    }
  }

  lemma LooseCrash(cfg: Config, dir: RunDir, es: seq<SkillEvent>, x: SkillEvent, e: SkillEvent, w: World, cut: Cut)
    requires Lawful(cfg.codec) && HoldsLoose(cfg.codec, dir.log, es, x)
    ensures Represents(cfg.codec, CrashIn(cfg, dir, e, w, cut).log, KeptStep(cfg, Kept(es + [x], true), Crash(e, w, cut)))
  {
    ReadLoose(cfg.codec, dir.log, es, x);
    CrashText(cfg, dir, e, w, cut);
    if cut.ResultWritten? {
      LooseStays(cfg.codec, dir.log, es, x);
      LooseAppend(cfg, dir, es, x, e, w);
    } else if cut.Writing? {
      LooseWriting(cfg, dir, es, x, e, w, cut.landed);
    } else {
      LooseStays(cfg.codec, dir.log, es, x);
    }
  }

  lemma LooseWriting(cfg: Config, dir: RunDir, es: seq<SkillEvent>, x: SkillEvent, e: SkillEvent, w: World, landed: nat)
    requires Lawful(cfg.codec) && HoldsLoose(cfg.codec, dir.log, es, x)
    ensures Represents(cfg.codec, CrashIn(cfg, dir, e, w, Writing(landed)).log,
                       KeptStep(cfg, Kept(es + [x], true), Crash(e, w, Writing(landed))))
  {
    ReadLoose(cfg.codec, dir.log, es, x);
    CrashText(cfg, dir, e, w, Writing(landed));
    if Fresh(es + [x], e) && Prepare(cfg, e, w).Write? {
      LooseCut(cfg, dir.log, es, x, e, w, landed);
    } else {
      LooseStays(cfg.codec, dir.log, es, x);
    }
  }

  lemma LooseCut(cfg: Config, text: string, es: seq<SkillEvent>, x: SkillEvent, e: SkillEvent, w: World, landed: nat)
    requires Lawful(cfg.codec) && HoldsLoose(cfg.codec, text, es, x) && Prepare(cfg, e, w).Write?
    ensures var a := Prepare(cfg, e, w);
      Represents(cfg.codec, text + (if landed <= |a.line| then a.line[..landed] else a.line + "\n"),
                 Partly(Kept(es + [x], true), a, landed))
  {
    var a := Prepare(cfg, e, w);
    PrepareKeepsSequence(cfg, e, w);
    LooseStays(cfg.codec, text, es, x);
    if landed == 0 {
      assert text + a.line[..0] == text;
    } else {
      LooseGlued(cfg.codec, text, es, x, a.stored, if landed <= |a.line| then landed else |a.line|);
    }
  }

  // Part of a second record behind a loose one, or all of it with its newline.
  lemma LooseGlued(c: Codec, text: string, es: seq<SkillEvent>, x: SkillEvent, y: SkillEvent, n: nat)
    requires Lawful(c) && HoldsLoose(c, text, es, x) && c.enc(y).Some? && n <= |c.enc(y).value|
    requires n > 0 || n == |c.enc(y).value|
    ensures var line := c.enc(y).value;
      && Represents(c, text + line[..n], Kept(es, false))
      && Represents(c, text + (line + "\n"), Kept(es, false))
      && Represents(c, text + line + "\n", Kept(es, false))
  {
    GluedHolds(c, text, es, x, y, n);
    assert text + c.enc(y).value + "\n" == text + (c.enc(y).value + "\n");
  }

  lemma GluedHolds(c: Codec, text: string, es: seq<SkillEvent>, x: SkillEvent, y: SkillEvent, n: nat)
    requires Lawful(c) && HoldsLoose(c, text, es, x) && c.enc(y).Some? && 0 < n <= |c.enc(y).value|
    ensures var line := c.enc(y).value;
      Holds(c, text + line[..n], es) && Holds(c, text + (line + "\n"), es)
  {
    var line := c.enc(y).value;
    IncreasingFront(es, x);
    GluedIsJunk(c, x, y, n);
    JunkHolds(c, es, c.enc(x).value + line[..n]);
    assert Render(c, es) + (c.enc(x).value + line[..n]) == text + line[..n];
    GluedIsJunk(c, x, y, |line|);
    assert line[..|line|] == line;
    JunkHolds(c, es, c.enc(x).value + line);
    assert Render(c, es) + (c.enc(x).value + line + "\n") == text + (line + "\n");
  }

  lemma IncreasingFront(es: seq<SkillEvent>, x: SkillEvent)
    requires Increasing(es + [x])
    ensures Increasing(es)
  {
    forall i, j | 0 <= i < j < |es| ensures es[i].sequence < es[j].sequence {
      assert es[i] == (es + [x])[i] && es[j] == (es + [x])[j];
    }
  }

  lemma KeptStepHolds(cfg: Config, dir: RunDir, k: Kept, step: Step)
    requires Lawful(cfg.codec) && Represents(cfg.codec, dir.log, k)
    ensures Represents(cfg.codec, StepDir(cfg, dir, step).log, KeptStep(cfg, k, step))
  {
    if k.loose {
      var front, x := k.events[..|k.events| - 1], k.events[|k.events| - 1];
      assert k == Kept(front + [x], true);
      LooseStep(cfg, dir, front, x, step);
    } else {
      assert k == Kept(k.events, false);
      match step {
        case Append(e, w) => AppendStep(cfg, dir, k.events, e, w);
        case Crash(e, w, cut) => CrashStep(cfg, dir, k.events, e, w, cut);
        case Read =>
      }
    }
  }

  // ---------------------------------------------------------------- whole runs

  predicate IsSubsequence<T(==)>(a: seq<T>, b: seq<T>) {
    if a == [] then true
    else if b == [] then false
    else if a[0] == b[0] && IsSubsequence(a[1..], b[1..]) then true
    else IsSubsequence(a, b[1..])
  }

  // Over every run of appends, reads and crashes at any point, the text reads back as
  // the list machine's list.
  lemma {:induction false} RunRefinesList(cfg: Config, dir: RunDir, k: Kept, steps: seq<Step>)
    requires Lawful(cfg.codec) && Represents(cfg.codec, dir.log, k)
    ensures var after, end := Exec(cfg, dir, steps), KeptExec(cfg, k, steps);
      Represents(cfg.codec, after.log, end) && Recovered(cfg.codec, after.log) == end.events
    decreases |steps|
  {
    ReadKept(cfg.codec, dir.log, k);
    if steps != [] {
      KeptStepHolds(cfg, dir, k, steps[0]);
      RunRefinesList(cfg, StepDir(cfg, dir, steps[0]), KeptStep(cfg, k, steps[0]), steps[1..]);
    }
  }

  // One step loses something readable exactly when it writes onto a loose record.
  lemma StepShrinksIff(cfg: Config, dir: RunDir, k: Kept, step: Step)
    requires Lawful(cfg.codec) && Represents(cfg.codec, dir.log, k)
    ensures Recovered(cfg.codec, dir.log) <= Recovered(cfg.codec, StepDir(cfg, dir, step).log)
       <==> !Glues(cfg, dir, step)
  {
    ReadKept(cfg.codec, dir.log, k);
    KeptStepHolds(cfg, dir, k, step);
    ReadKept(cfg.codec, StepDir(cfg, dir, step).log, KeptStep(cfg, k, step));
    KeptShrinksIff(cfg, dir, k, step);
  }

  lemma KeptShrinksIff(cfg: Config, dir: RunDir, k: Kept, step: Step)
    requires Lawful(cfg.codec) && Recovered(cfg.codec, dir.log) == k.events && (k.loose ==> k.events != [])
    ensures k.events <= KeptStep(cfg, k, step).events <==> !(k.loose && Writes(cfg, dir, step))
  {
    if Writes(cfg, dir, step) {
      PrepareKeepsSequence(cfg, step.event, step.world);
      assert cfg.codec.enc(Prepare(cfg, step.event, step.world).stored).Some?;
    }
  }

  // Over every run, nothing readable is ever lost exactly when no step of the run writes
  // onto a record that lost its newline in a crash.
  lemma {:induction false} RunShrinksIff(cfg: Config, dir: RunDir, k: Kept, steps: seq<Step>)
    requires Lawful(cfg.codec) && Represents(cfg.codec, dir.log, k)
    ensures NeverShrinks(cfg, dir, steps) <==> NeverGlues(cfg, dir, steps)
    decreases |steps|
  {
    if steps != [] {
      StepShrinksIff(cfg, dir, k, steps[0]);
      KeptStepHolds(cfg, dir, k, steps[0]);
      RunShrinksIff(cfg, StepDir(cfg, dir, steps[0]), KeptStep(cfg, k, steps[0]), steps[1..]);
    }
  }

  lemma SubsequenceConcat<T>(a: seq<T>, b: seq<T>, more: seq<T>, fewer: seq<T>)
    requires |more| <= 1 && (fewer == [] || fewer == more) && IsSubsequence(a, b)
    ensures IsSubsequence(fewer + a, more + b)
  {
    if more == [] {
      assert more + b == b && fewer + a == a;
    } else {
      assert (more + b)[1..] == b;
      if fewer == [] { assert fewer + a == a; } else { assert (fewer + a)[1..] == a; }
    }
  }

  // What one step adds to the list: the acknowledged event, or what a crash left complete.
  lemma StepAdds(cfg: Config, dir: RunDir, k: Kept, step: Step) returns (more: seq<SkillEvent>)
    requires Lawful(cfg.codec) && Represents(cfg.codec, dir.log, k) && !Glues(cfg, dir, step)
    ensures Represents(cfg.codec, StepDir(cfg, dir, step).log, KeptStep(cfg, k, step))
    ensures KeptStep(cfg, k, step).events == k.events + more
    ensures |more| <= 1 && (step.Crash? || AckOf(cfg, dir, step) == more)
    ensures AckOf(cfg, dir, step) == [] || AckOf(cfg, dir, step) == more
  {
    KeptStepHolds(cfg, dir, k, step);
    ReadKept(cfg.codec, dir.log, k);
    KeptAdds(cfg, dir, k, step);
    AckedIsAdded(cfg, dir, k, step);
    more := Added(cfg, k, step);
  }

  // The event whose record one step completes.
  function Added(cfg: Config, k: Kept, step: Step): seq<SkillEvent> {
    if step.Read? || !Fresh(k.events, step.event) || !Prepare(cfg, step.event, step.world).Write? then []
    else
      var a := Prepare(cfg, step.event, step.world);
      if step.Append? || step.cut.ResultWritten? || (step.cut.Writing? && step.cut.landed >= |a.line|) then [a.stored] else []
  }

  lemma KeptAdds(cfg: Config, dir: RunDir, k: Kept, step: Step)
    requires Recovered(cfg.codec, dir.log) == k.events && !(k.loose && Writes(cfg, dir, step))
    requires Lawful(cfg.codec)
    ensures KeptStep(cfg, k, step).events == k.events + Added(cfg, k, step)
  {
    if !step.Read? && Prepare(cfg, step.event, step.world).Write? {
      PrepareKeepsSequence(cfg, step.event, step.world);
      assert Prepare(cfg, step.event, step.world).line != "";
    }
  }

  lemma AckedIsAdded(cfg: Config, dir: RunDir, k: Kept, step: Step)
    requires ReadText(cfg.codec, dir.log).Events? && ReadText(cfg.codec, dir.log).events == k.events
    ensures AckOf(cfg, dir, step) == if step.Append? then Added(cfg, k, step) else []
  {
  }

  lemma CombineStep(es: seq<SkillEvent>, more: seq<SkillEvent>, ack: seq<SkillEvent>,
                    acks: seq<SkillEvent>, after: seq<SkillEvent>)
    requires |more| <= 1 && (ack == [] || ack == more)
    requires es + more <= after && IsSubsequence(acks, after[|es + more|..])
    ensures es <= after && IsSubsequence(ack + acks, after[|es|..])
  {
    assert after[|es|..] == more + after[|es + more|..];
    SubsequenceConcat(acks, after[|es + more|..], more, ack);
    assert es == (es + more)[..|es|] == after[..|es|];
  }

  // What is kept: everything read before, then every acknowledged event in order,
  // and at most one further event for each crash.
  lemma {:induction false} DurableRun(cfg: Config, dir: RunDir, k: Kept, steps: seq<Step>)
    requires Lawful(cfg.codec) && Represents(cfg.codec, dir.log, k) && NeverGlues(cfg, dir, steps)
    ensures var after := Recovered(cfg.codec, Exec(cfg, dir, steps).log);
      && Increasing(after)
      && k.events <= after
      && IsSubsequence(Acked(cfg, dir, steps), after[|k.events|..])
      && |after| <= |k.events| + |Acked(cfg, dir, steps)| + Crashes(steps)
    decreases |steps|
  {
    var after := Recovered(cfg.codec, Exec(cfg, dir, steps).log);
    if steps == [] {
      ReadKept(cfg.codec, dir.log, k);
      if k.loose { assert k.events == k.events[..|k.events| - 1] + [k.events[|k.events| - 1]]; }
    } else {
      var dir1 := StepDir(cfg, dir, steps[0]);
      var more := StepAdds(cfg, dir, k, steps[0]);
      DurableRun(cfg, dir1, KeptStep(cfg, k, steps[0]), steps[1..]);
      CombineStep(k.events, more, AckOf(cfg, dir, steps[0]), Acked(cfg, dir1, steps[1..]), after);
    }
  }

  // ---------------------------------------------------------------- the lost newline

  // The append after a lost newline reports success and makes both records unreadable.
  lemma GluedAppend(cfg: Config, dir: RunDir, es: seq<SkillEvent>, x: SkillEvent, f: SkillEvent, v: World)
    requires Lawful(cfg.codec) && HoldsLoose(cfg.codec, dir.log, es, x)
    requires f.sequence > x.sequence && Prepare(cfg, f, v).Write?
    ensures AppendTo(cfg, dir, f, v).answer == Ok(Prepare(cfg, f, v).stored)
    ensures Recovered(cfg.codec, dir.log) == es + [x]
    ensures Recovered(cfg.codec, AppendTo(cfg, dir, f, v).dir.log) == es
  {
    ReadLoose(cfg.codec, dir.log, es, x);
    LooseStep(cfg, dir, es, x, Append(f, v));
    assert (es + [x])[..|es|] == es;
    ReadHeld(cfg.codec, AppendTo(cfg, dir, f, v).dir.log, es);
  }

  // A crash during an append of `e` is followed by an append of a newer event `f`.
  // Both the recovered events and `f` survive exactly when the crash did not cut
  // away just the newline; then the new record is glued to the old one.
  lemma LostNewlineIff(cfg: Config, dir: RunDir, es: seq<SkillEvent>,
                       e: SkillEvent, w: World, cut: Cut, f: SkillEvent, v: World)
    requires Lawful(cfg.codec) && Holds(cfg.codec, dir.log, es)
    requires Fresh(es, e) && f.sequence > e.sequence && Prepare(cfg, f, v).Write?
    ensures var crashed := CrashIn(cfg, dir, e, w, cut);
      var later := AppendTo(cfg, crashed, f, v);
      && later.answer == Ok(Prepare(cfg, f, v).stored)
      && (Recovered(cfg.codec, later.dir.log) == Recovered(cfg.codec, crashed.log) + [Prepare(cfg, f, v).stored]
          <==> !LosesNewline(cfg, dir, e, w, cut))
  {
    var crashed := CrashIn(cfg, dir, e, w, cut);
    ReadHeld(cfg.codec, dir.log, es);
    if LosesNewline(cfg, dir, e, w, cut) {
      CrashBeforeNewline(cfg, dir, es, e, w);
      PrepareKeepsSequence(cfg, e, w);
      GluedAppend(cfg, crashed, es, Prepare(cfg, e, w).stored, f, v);
    } else {
      AppendAfterCleanCut(cfg, dir, es, e, w, cut, f, v);
    }
  }

  lemma AppendAfterCleanCut(cfg: Config, dir: RunDir, es: seq<SkillEvent>,
                            e: SkillEvent, w: World, cut: Cut, f: SkillEvent, v: World)
    requires Lawful(cfg.codec) && Holds(cfg.codec, dir.log, es) && !LosesNewline(cfg, dir, e, w, cut)
    requires Fresh(es, e) && f.sequence > e.sequence && Prepare(cfg, f, v).Write?
    ensures var crashed := CrashIn(cfg, dir, e, w, cut);
      var later := AppendTo(cfg, crashed, f, v);
      && later.answer == Ok(Prepare(cfg, f, v).stored)
      && Recovered(cfg.codec, later.dir.log) == Recovered(cfg.codec, crashed.log) + [Prepare(cfg, f, v).stored]
  {
    ReadHeld(cfg.codec, dir.log, es);
    CrashStep(cfg, dir, es, e, w, cut);
    CleanCutKeeps(cfg, es, e, w, cut, f);
    var after := KeptStep(cfg, Kept(es, false), Crash(e, w, cut));
    AppendAfter(cfg, CrashIn(cfg, dir, e, w, cut), after.events, f, v);
  }

  lemma CleanCutKeeps(cfg: Config, es: seq<SkillEvent>, e: SkillEvent, w: World, cut: Cut, f: SkillEvent)
    requires Fresh(es, e) && f.sequence > e.sequence
    requires Prepare(cfg, e, w).Write? ==> cut != Writing(|Prepare(cfg, e, w).line|)
    ensures var after := KeptStep(cfg, Kept(es, false), Crash(e, w, cut)); !after.loose && Fresh(after.events, f)
  {
    if Prepare(cfg, e, w).Write? { PrepareKeepsSequence(cfg, e, w); }
  }

  lemma CrashBeforeNewline(cfg: Config, dir: RunDir, es: seq<SkillEvent>, e: SkillEvent, w: World)
    requires Lawful(cfg.codec) && Holds(cfg.codec, dir.log, es) && Fresh(es, e) && Prepare(cfg, e, w).Write?
    ensures var a := Prepare(cfg, e, w);
            HoldsLoose(cfg.codec, CrashIn(cfg, dir, e, w, Writing(|a.line|)).log, es, a.stored)
  {
    ReadHeld(cfg.codec, dir.log, es);
    PrepareKeepsSequence(cfg, e, w);
    RenderSnoc(cfg.codec, es, Prepare(cfg, e, w).stored);
    var line := Prepare(cfg, e, w).line;
    assert line[..|line|] == line;
  }

  lemma AppendAfter(cfg: Config, dir: RunDir, es: seq<SkillEvent>, f: SkillEvent, v: World)
    requires Lawful(cfg.codec) && Holds(cfg.codec, dir.log, es) && Fresh(es, f) && Prepare(cfg, f, v).Write?
    ensures AppendTo(cfg, dir, f, v).answer == Ok(Prepare(cfg, f, v).stored)
    ensures Recovered(cfg.codec, AppendTo(cfg, dir, f, v).dir.log)
         == Recovered(cfg.codec, dir.log) + [Prepare(cfg, f, v).stored]
  {
    AppendStep(cfg, dir, es, f, v);
    ReadHeld(cfg.codec, dir.log, es);
    ReadHeld(cfg.codec, AppendTo(cfg, dir, f, v).dir.log, es + [Prepare(cfg, f, v).stored]);
  }

  // ---------------------------------------------------------------- retries

  // The stored form of an event always answers for the event itself.
  lemma StoredAnswersForEvent(cfg: Config, e: SkillEvent, w: World)
    requires Externalize(cfg, e, w).Some?
    ensures var x := Externalize(cfg, e, w).value.0; x == e || Matches(x, e)
  {
    if e.result.Some? && cfg.hasArtifactStore {
      var x := Externalize(cfg, e, w).value.0;
      var res := e.result.value;
      var pinned := PinAll(res.observations, w.pin);
      assert SameImages(pinned, res.observations);
      if !StaysInline(cfg, res.(observations := pinned).data) {
        var arts := x.result.value.artifacts;
        assert arts[|arts| - 1].role == Some("execution_trace");
      }
    }
  }

  // Appending an event whose stored form is the last record, from any log that holds
  // it, torn tail or not: the stored form is the answer, only the torn tail goes, and no
  // artifact is created.
  lemma RetryOfStored(cfg: Config, dir: RunDir, es: seq<SkillEvent>, e: SkillEvent, w: World, w': World)
    requires Lawful(cfg.codec) && Prepare(cfg, e, w).Write?
    requires Holds(cfg.codec, dir.log, es + [Prepare(cfg, e, w).stored])
    ensures var all := es + [Prepare(cfg, e, w).stored];
      AppendTo(cfg, dir, e, w') == Appended(dir.(log := Render(cfg.codec, all)), [], Ok(Prepare(cfg, e, w).stored))
  {
    PrepareKeepsSequence(cfg, e, w);
    StoredAnswersForEvent(cfg, e, w);
    ReadHeld(cfg.codec, dir.log, es + [Prepare(cfg, e, w).stored]);
  }

  lemma FreshAppend(cfg: Config, dir: RunDir, es: seq<SkillEvent>, e: SkillEvent, w: World)
    requires Lawful(cfg.codec) && Holds(cfg.codec, dir.log, es) && Fresh(es, e)
    ensures AppendTo(cfg, dir, e, w).answer.Ok? <==> Prepare(cfg, e, w).Write?
    ensures Prepare(cfg, e, w).Write? ==>
      var x := Prepare(cfg, e, w).stored;
      && Encodable(cfg.codec, es + [x])
      && AppendTo(cfg, dir, e, w).dir.log == Render(cfg.codec, es + [x])
      && AppendTo(cfg, dir, e, w).answer == Ok(x)
  {
    ReadHeld(cfg.codec, dir.log, es);
    if Prepare(cfg, e, w).Write? {
      PrepareKeepsSequence(cfg, e, w);
      RenderSnoc(cfg.codec, es, Prepare(cfg, e, w).stored);
    }
  }

  // Re-appending the last accepted event returns its stored form, changes no file
  // and creates no artifact, whatever the file system answers this time.
  lemma RetryIsIdempotent(cfg: Config, dir: RunDir, es: seq<SkillEvent>, e: SkillEvent, w: World, w': World)
    requires Lawful(cfg.codec) && Holds(cfg.codec, dir.log, es) && Fresh(es, e)
    requires AppendTo(cfg, dir, e, w).answer.Ok?
    ensures var first := AppendTo(cfg, dir, e, w);
            AppendTo(cfg, first.dir, e, w') == Appended(first.dir, [], first.answer)
  {
    FreshAppend(cfg, dir, es, e, w);
    AppendStep(cfg, dir, es, e, w);
    RetryOfStored(cfg, AppendTo(cfg, dir, e, w).dir, es, e, w, w');
  }

  // An event numbered below the last record is always refused, and changes no record.
  lemma OlderEventRefused(cfg: Config, dir: RunDir, es: seq<SkillEvent>, e: SkillEvent, w: World)
    requires Lawful(cfg.codec) && Holds(cfg.codec, dir.log, es)
    requires es != [] && e.sequence < es[|es| - 1].sequence
    ensures var r := AppendTo(cfg, dir, e, w);
      && r.answer == Err(NotIncreasing(es[|es| - 1].sequence)) && r.artifacts == []
      && Recovered(cfg.codec, r.dir.log) == es
  {
    ReadHeld(cfg.codec, dir.log, es);
    AppendStep(cfg, dir, es, e, w);
    ReadHeld(cfg.codec, AppendTo(cfg, dir, e, w).dir.log, es);
  }

  // What externalising may change: pinned uris, and data that moved to an artifact.
  // Oversized or trace-carrying data never stays in the log, and the entry left behind
  // names the artifact.
  lemma ExternalizeKeeps(cfg: Config, e: SkillEvent, w: World)
    requires cfg.hasArtifactStore && e.result.Some? && Externalize(cfg, e, w).Some?
    ensures var (x, arts) := Externalize(cfg, e, w).value;
      && x.result.Some?
      && x == e.(result := x.result)
      && x.result.value == e.result.value.(observations := x.result.value.observations,
           data := x.result.value.data, artifacts := e.result.value.artifacts + arts)
      && SameImages(x.result.value.observations, e.result.value.observations)
      && if StaysInline(cfg, e.result.value.data) then arts == [] && x.result.value.data == e.result.value.data
         else
           && |arts| == 1 && HasTrace(x.result.value.artifacts)
           && TRACE_KEYS !! x.result.value.data.Keys
           && "execution_trace" in x.result.value.data
           && x.result.value.data["execution_trace"] == JStr(arts[0].uri)
           && forall k :: k in x.result.value.data && k in KEPT_KEYS ==>
                k in e.result.value.data && x.result.value.data[k] == e.result.value.data[k]
  {
    var res := e.result.value;
    assert SameImages(PinAll(res.observations, w.pin), res.observations);
    if StaysInline(cfg, res.data) {
      assert res.artifacts + [] == res.artifacts;
    } else {
      CompactKeeps(res.data, w.put.value);
      var art := Trace(e, w.put.value);
      assert (res.artifacts + [art])[|res.artifacts|] == art;
    }
  }

  lemma CompactKeeps(data: Data, uri: string)
    ensures var d := Compact(data, uri);
      && TRACE_KEYS !! d.Keys
      && "execution_trace" in d && d["execution_trace"] == JStr(uri)
      && forall k :: k in d && k in KEPT_KEYS ==> k in data && d[k] == data[k]
  {
  }

  // All the duplicate test compares, in terms of the two events as they were submitted:
  // neither data nor time, and no observations once a trace is or was stored.
  predicate SameOutcome(cfg: Config, e: SkillEvent, f: SkillEvent) {
    && e.result.Some? && f.result.Some? && e.name == f.name && e.phase == f.phase
    && var r, s := e.result.value, f.result.value;
    && r.success == s.success && r.status == s.status && r.summary == s.summary
    && r.failureMode == s.failureMode && r.error == s.error
    && (HasTrace(r.artifacts) || (cfg.hasArtifactStore && !StaysInline(cfg, r.data))
        || SameImages(r.observations, s.observations))
  }

  lemma MatchesIff(cfg: Config, e: SkillEvent, w: World, f: SkillEvent)
    requires Externalize(cfg, e, w).Some? && f.sequence == e.sequence
    ensures Matches(Externalize(cfg, e, w).value.0, f) <==> SameOutcome(cfg, e, f)
  {
    if e.result.Some? && cfg.hasArtifactStore {
      var (x, arts) := Externalize(cfg, e, w).value;
      ExternalizeKeeps(cfg, e, w);
      var given, kept := e.result.value.artifacts, x.result.value.artifacts;
      if StaysInline(cfg, e.result.value.data) {
        assert kept == given;
      }
    }
  }

  // After an accepted append of `e`, an event with the same number is answered like `e`
  // exactly when it is the stored event or has the same outcome; otherwise it is refused.
  // Either way nothing is written, so whatever else was different in it is dropped.
  lemma DuplicateAcceptedIff(cfg: Config, dir: RunDir, es: seq<SkillEvent>, e: SkillEvent, w: World,
                             f: SkillEvent, w': World)
    requires Lawful(cfg.codec) && Holds(cfg.codec, dir.log, es) && Fresh(es, e)
    requires AppendTo(cfg, dir, e, w).answer.Ok? && f.sequence == e.sequence
    ensures var first := AppendTo(cfg, dir, e, w);
      var again := AppendTo(cfg, first.dir, f, w');
      && (again.answer == first.answer <==> f == first.answer.value || SameOutcome(cfg, e, f))
      && (again.answer != first.answer ==> again.answer == Err(NotIncreasing(e.sequence)))
      && again.dir == first.dir && again.artifacts == []
  {
    var first := AppendTo(cfg, dir, e, w);
    FreshAppend(cfg, dir, es, e, w);
    var x := Prepare(cfg, e, w).stored;
    PrepareKeepsSequence(cfg, e, w);
    MatchesIff(cfg, e, w, f);
    assert first.dir.log == Render(cfg.codec, es + [x]) + "";
    ReadRendered(cfg.codec, es + [x], "");
  }

  // ---------------------------------------------------------------- result.json

  function LastResult(es: seq<SkillEvent>): Option<SkillResult> {
    if es == [] then None
    else if es[|es| - 1].result.Some? then es[|es| - 1].result
    else LastResult(es[..|es| - 1])
  }

  lemma LastResultSnoc(es: seq<SkillEvent>, x: SkillEvent)
    ensures LastResult(es + [x]) == if x.result.Some? then x.result else LastResult(es)
  {
    assert (es + [x])[..|es|] == es;
  }

  lemma AppendKeepsResult(cfg: Config, dir: RunDir, es: seq<SkillEvent>, e: SkillEvent, w: World)
    requires Lawful(cfg.codec) && Holds(cfg.codec, dir.log, es) && dir.result == LastResult(es)
    ensures AppendTo(cfg, dir, e, w).dir.result == LastResult(KeptStep(cfg, Kept(es, false), Append(e, w)).events)
  {
    ReadHeld(cfg.codec, dir.log, es);
    if Fresh(es, e) && Prepare(cfg, e, w).Write? {
      LastResultSnoc(es, Prepare(cfg, e, w).stored);
    }
  }

  // In a run without crashes result.json is the result of the last terminal event in the log.
  lemma {:induction false} CrashFreeResult(cfg: Config, dir: RunDir, es: seq<SkillEvent>, steps: seq<Step>)
    requires Lawful(cfg.codec) && Holds(cfg.codec, dir.log, es) && dir.result == LastResult(es)
    requires Crashes(steps) == 0
    ensures var after := Exec(cfg, dir, steps);
            after.result == LastResult(Recovered(cfg.codec, after.log))
    decreases |steps|
  {
    ReadHeld(cfg.codec, dir.log, es);
    if steps != [] {
      if steps[0].Append? {
        AppendKeepsResult(cfg, dir, es, steps[0].event, steps[0].world);
        AppendStep(cfg, dir, es, steps[0].event, steps[0].world);
      }
      CrashFreeResult(cfg, StepDir(cfg, dir, steps[0]), KeptStep(cfg, Kept(es, false), steps[0]).events, steps[1..]);
    }
  }

  // ---------------------------------------------------------------- result.json over any run

  // The step gets as far as replacing result.json.
  predicate Replaces(cfg: Config, dir: RunDir, step: Step) {
    Writes(cfg, dir, step) && (step.Append? || step.cut.ResultWritten?)
    && Prepare(cfg, step.event, step.world).stored.result.Some?
  }

  function ResultAfter(cfg: Config, dir: RunDir, step: Step): Option<SkillResult> {
    if Replaces(cfg, dir, step) then Prepare(cfg, step.event, step.world).stored.result else dir.result
  }

  // The whole record of a terminal event reaches the file.
  predicate LandsTerminal(cfg: Config, dir: RunDir, step: Step) {
    && Writes(cfg, dir, step) && Prepare(cfg, step.event, step.world).stored.result.Some?
    && !(step.Crash? && step.cut.Writing? && step.cut.landed < |Prepare(cfg, step.event, step.world).line|)
  }

  // ... and result.json holds its result afterwards, because it was replaced or did before.
  predicate Settles(cfg: Config, dir: RunDir, step: Step) {
    LandsTerminal(cfg, dir, step)
    && (Replaces(cfg, dir, step) || Prepare(cfg, step.event, step.world).stored.result == dir.result)
  }

  // ... in a crash that came before result.json was replaced by the different result.
  predicate Strands(cfg: Config, dir: RunDir, step: Step) {
    LandsTerminal(cfg, dir, step) && !Settles(cfg, dir, step)
  }

  // Whether result.json disagrees with the log after one step, given whether it did before.
  // Gluing takes the last record away, and leaves the result before it.
  predicate StaleNext(cfg: Config, dir: RunDir, step: Step, stale: bool) {
    if Glues(cfg, dir, step) then
      var es := Recovered(cfg.codec, dir.log);
      es != [] && ResultAfter(cfg, dir, step) != LastResult(es[..|es| - 1])
    else Strands(cfg, dir, step) || (stale && !Settles(cfg, dir, step))
  }

  predicate StaleAfter(cfg: Config, dir: RunDir, steps: seq<Step>, stale: bool)
    decreases |steps|
  {
    if steps == [] then stale
    else StaleAfter(cfg, StepDir(cfg, dir, steps[0]), steps[1..], StaleNext(cfg, dir, steps[0], stale))
  }

  // Over every run, with any number of crashes and whatever they cut, result.json differs
  // from the result of the last terminal event in the log exactly when the steps say so.
  lemma {:induction false} RunResultIff(cfg: Config, dir: RunDir, k: Kept, steps: seq<Step>, stale: bool)
    requires Lawful(cfg.codec) && Represents(cfg.codec, dir.log, k)
    requires stale <==> dir.result != LastResult(k.events)
    ensures var after := Exec(cfg, dir, steps);
      after.result != LastResult(Recovered(cfg.codec, after.log)) <==> StaleAfter(cfg, dir, steps, stale)
    decreases |steps|
  {
    ReadKept(cfg.codec, dir.log, k);
    if steps != [] {
      KeptStepHolds(cfg, dir, k, steps[0]);
      StaleStep(cfg, dir, k, steps[0], stale);
      RunResultIff(cfg, StepDir(cfg, dir, steps[0]), KeptStep(cfg, k, steps[0]), steps[1..],
                   StaleNext(cfg, dir, steps[0], stale));
    }
  }

  // The directory before step i of a run.
  function DirAt(cfg: Config, dir: RunDir, steps: seq<Step>, i: nat): RunDir
    requires i <= |steps|
    decreases i
  {
    if i == 0 then dir else DirAt(cfg, StepDir(cfg, dir, steps[0]), steps[1..], i - 1)
  }

  predicate NoneSettles(cfg: Config, dir: RunDir, steps: seq<Step>, from: nat) {
    forall j :: from <= j < |steps| ==> !Settles(cfg, DirAt(cfg, dir, steps, j), steps[j])
  }

  // Step i leaves result.json stale, and no later one makes up for it.
  predicate LeftStale(cfg: Config, dir: RunDir, steps: seq<Step>, i: nat)
    requires i < |steps|
  {
    Strands(cfg, DirAt(cfg, dir, steps, i), steps[i]) && NoneSettles(cfg, dir, steps, i + 1)
  }

  lemma NoneSettlesTail(cfg: Config, dir: RunDir, steps: seq<Step>, from: nat)
    requires steps != []
    ensures NoneSettles(cfg, dir, steps, from + 1) <==> NoneSettles(cfg, StepDir(cfg, dir, steps[0]), steps[1..], from)
  {
    var next, rest := StepDir(cfg, dir, steps[0]), steps[1..];
    forall j | 0 <= j < |rest| ensures DirAt(cfg, dir, steps, j + 1) == DirAt(cfg, next, rest, j) && steps[j + 1] == rest[j] {
    }
    if NoneSettles(cfg, dir, steps, from + 1) {
      forall j | from <= j < |rest| ensures !Settles(cfg, DirAt(cfg, next, rest, j), rest[j]) {
        assert !Settles(cfg, DirAt(cfg, dir, steps, j + 1), steps[j + 1]);
      }
    }
    if NoneSettles(cfg, next, rest, from) {
      forall j | from + 1 <= j < |steps| ensures !Settles(cfg, DirAt(cfg, dir, steps, j), steps[j]) {
        assert !Settles(cfg, DirAt(cfg, next, rest, j - 1), rest[j - 1]);
      }
    }
  }

  lemma LeftStaleTail(cfg: Config, dir: RunDir, steps: seq<Step>, i: nat)
    requires i + 1 < |steps|
    ensures LeftStale(cfg, dir, steps, i + 1) <==> LeftStale(cfg, StepDir(cfg, dir, steps[0]), steps[1..], i)
  {
    NoneSettlesTail(cfg, dir, steps, i + 1);
  }

  ghost predicate SomeLeftStale(cfg: Config, dir: RunDir, steps: seq<Step>) {
    exists i :: 0 <= i < |steps| && LeftStale(cfg, dir, steps, i)
  }

  lemma SomeLeftStaleCons(cfg: Config, dir: RunDir, steps: seq<Step>)
    requires steps != []
    ensures SomeLeftStale(cfg, dir, steps)
       <==> LeftStale(cfg, dir, steps, 0) || SomeLeftStale(cfg, StepDir(cfg, dir, steps[0]), steps[1..])
  {
    var next, rest := StepDir(cfg, dir, steps[0]), steps[1..];
    if SomeLeftStale(cfg, dir, steps) {
      var i :| 0 <= i < |steps| && LeftStale(cfg, dir, steps, i);
      if i > 0 {
        LeftStaleTail(cfg, dir, steps, i - 1);
        assert LeftStale(cfg, next, rest, i - 1);
      }
    }
    if SomeLeftStale(cfg, next, rest) {
      var i :| 0 <= i < |rest| && LeftStale(cfg, next, rest, i);
      LeftStaleTail(cfg, dir, steps, i);
      assert LeftStale(cfg, dir, steps, i + 1);
    }
  }

  lemma {:induction false} StaleByStep(cfg: Config, dir: RunDir, steps: seq<Step>, stale: bool)
    requires NeverGlues(cfg, dir, steps)
    ensures StaleAfter(cfg, dir, steps, stale)
       <==> (stale && NoneSettles(cfg, dir, steps, 0)) || SomeLeftStale(cfg, dir, steps)
    decreases |steps|
  {
    if steps != [] {
      StaleByStep(cfg, StepDir(cfg, dir, steps[0]), steps[1..], StaleNext(cfg, dir, steps[0], stale));
      NoneSettlesTail(cfg, dir, steps, 0);
      SomeLeftStaleCons(cfg, dir, steps);
      assert NoneSettles(cfg, dir, steps, 0) <==> !Settles(cfg, dir, steps[0]) && NoneSettles(cfg, dir, steps, 1) by {
        assert DirAt(cfg, dir, steps, 0) == dir;
      }
    }
  }

  // Over every run that glues nothing, with any number of crashes, result.json agrees with
  // the log in the end exactly when no crash that stranded a terminal record was the last
  // word: some later terminal record was settled.
  lemma StrandedIff(cfg: Config, dir: RunDir, k: Kept, steps: seq<Step>)
    requires Lawful(cfg.codec) && Represents(cfg.codec, dir.log, k) && NeverGlues(cfg, dir, steps)
    requires dir.result == LastResult(k.events)
    ensures var after := Exec(cfg, dir, steps);
      after.result == LastResult(Recovered(cfg.codec, after.log))
      <==> !exists i :: 0 <= i < |steps| && LeftStale(cfg, dir, steps, i)
  {
    RunResultIff(cfg, dir, k, steps, false);
    StaleByStep(cfg, dir, steps, false);
  }

  lemma StaleStep(cfg: Config, dir: RunDir, k: Kept, step: Step, stale: bool)
    requires Lawful(cfg.codec) && Represents(cfg.codec, dir.log, k)
    requires stale <==> dir.result != LastResult(k.events)
    ensures StaleNext(cfg, dir, step, stale) <==> StepDir(cfg, dir, step).result != LastResult(KeptStep(cfg, k, step).events)
  {
    ReadKept(cfg.codec, dir.log, k);
    StepResult(cfg, dir, step);
    KeptResult(cfg, dir, k, step);
    StaleFits(cfg, dir, k, step, stale);
  }

  lemma StaleFits(cfg: Config, dir: RunDir, k: Kept, step: Step, stale: bool)
    requires Lawful(cfg.codec) && Recovered(cfg.codec, dir.log) == k.events && (LooseText(cfg.codec, dir.log) <==> k.loose)
    requires (k.loose ==> k.events != []) && (stale <==> dir.result != LastResult(k.events))
    ensures StaleNext(cfg, dir, step, stale) <==> ResultAfter(cfg, dir, step) != LastKept(cfg, dir, k, step)
  {
    if !step.Read? && Prepare(cfg, step.event, step.world).Write? {
      PrepareKeepsSequence(cfg, step.event, step.world);
      assert Prepare(cfg, step.event, step.world).line != "";
    }
  }

  lemma StepResult(cfg: Config, dir: RunDir, step: Step)
    requires ReadText(cfg.codec, dir.log).Events?
    ensures StepDir(cfg, dir, step).result == ResultAfter(cfg, dir, step)
  {
  }

  // The last terminal result in the list after one step.
  function LastKept(cfg: Config, dir: RunDir, k: Kept, step: Step): Option<SkillResult>
    requires k.loose ==> k.events != []
  {
    if k.loose && Writes(cfg, dir, step) then LastResult(k.events[..|k.events| - 1])
    else
      var added := Added(cfg, k, step);
      if added != [] && added[0].result.Some? then added[0].result else LastResult(k.events)
  }

  lemma KeptResult(cfg: Config, dir: RunDir, k: Kept, step: Step)
    requires Lawful(cfg.codec) && Recovered(cfg.codec, dir.log) == k.events && (k.loose ==> k.events != [])
    ensures LastResult(KeptStep(cfg, k, step).events) == LastKept(cfg, dir, k, step)
  {
    if k.loose && Writes(cfg, dir, step) {
      PrepareKeepsSequence(cfg, step.event, step.world);
      assert Prepare(cfg, step.event, step.world).line != "";
    } else {
      KeptAdds(cfg, dir, k, step);
      var added := Added(cfg, k, step);
      if added == [] { assert k.events + added == k.events; } else { LastResultSnoc(k.events, added[0]); }
    }
  }

  // A crash after the record is complete, with or without its newline, and before
  // result.json is the one way to break that agreement, and appending the same event
  // again does not restore it.
  lemma StaleResultIff(cfg: Config, dir: RunDir, es: seq<SkillEvent>, e: SkillEvent, w: World, cut: Cut, w': World)
    requires Lawful(cfg.codec) && Holds(cfg.codec, dir.log, es) && dir.result == LastResult(es)
    requires Fresh(es, e) && Prepare(cfg, e, w).Write?
    ensures var a := Prepare(cfg, e, w);
      var crashed := CrashIn(cfg, dir, e, w, cut);
      var retried := AppendTo(cfg, crashed, e, w');
      var landed := cut.Writing? && cut.landed >= |a.line|;
      && (crashed.result == LastResult(Recovered(cfg.codec, crashed.log))
          <==> !(landed && a.stored.result.Some? && a.stored.result != dir.result))
      && (landed ==> retried.dir == crashed && retried.answer == Ok(a.stored))
  {
    var a := Prepare(cfg, e, w);
    if LosesNewline(cfg, dir, e, w, cut) {
      LandedWithoutNewline(cfg, dir, es, e, w, w');
    } else {
      ReadHeld(cfg.codec, dir.log, es);
      ResultAfterCrash(cfg, dir, es, e, w, cut);
      if cut.Writing? && cut.landed > |a.line| {
        LandedWithNewline(cfg, dir, es, e, w, cut, w');
      }
    }
  }

  lemma ResultAfterCrash(cfg: Config, dir: RunDir, es: seq<SkillEvent>, e: SkillEvent, w: World, cut: Cut)
    requires Lawful(cfg.codec) && Holds(cfg.codec, dir.log, es) && dir.result == LastResult(es)
    requires Fresh(es, e) && Prepare(cfg, e, w).Write? && !LosesNewline(cfg, dir, e, w, cut)
    ensures var a := Prepare(cfg, e, w);
      var crashed := CrashIn(cfg, dir, e, w, cut);
      && Recovered(cfg.codec, crashed.log) == KeptStep(cfg, Kept(es, false), Crash(e, w, cut)).events
      && crashed.result == (if cut.ResultWritten? && a.stored.result.Some? then a.stored.result else dir.result)
      && LastResult(Recovered(cfg.codec, crashed.log)) ==
           (if (cut.ResultWritten? || (cut.Writing? && cut.landed > |a.line|)) && a.stored.result.Some?
            then a.stored.result else dir.result)
  {
    ReadHeld(cfg.codec, dir.log, es);
    CrashStep(cfg, dir, es, e, w, cut);
    ReadKept(cfg.codec, CrashIn(cfg, dir, e, w, cut).log, KeptStep(cfg, Kept(es, false), Crash(e, w, cut)));
    LastResultSnoc(es, Prepare(cfg, e, w).stored);
  }

  lemma LandedWithNewline(cfg: Config, dir: RunDir, es: seq<SkillEvent>, e: SkillEvent, w: World, cut: Cut, w': World)
    requires Lawful(cfg.codec) && Holds(cfg.codec, dir.log, es)
    requires Fresh(es, e) && Prepare(cfg, e, w).Write?
    requires cut.Writing? && cut.landed > |Prepare(cfg, e, w).line|
    ensures var crashed := CrashIn(cfg, dir, e, w, cut);
      AppendTo(cfg, crashed, e, w') == Appended(crashed, [], Ok(Prepare(cfg, e, w).stored))
  {
    var a := Prepare(cfg, e, w);
    ReadHeld(cfg.codec, dir.log, es);
    PrepareKeepsSequence(cfg, e, w);
    RenderSnoc(cfg.codec, es, a.stored);
    assert Render(cfg.codec, es) + (a.line + "\n") == Render(cfg.codec, es) + a.line + "\n";
    SnocHolds(cfg.codec, es, a.stored);
    RetryOfStored(cfg, CrashIn(cfg, dir, e, w, cut), es, e, w, w');
  }

  // A complete record without its newline is read like any other, while result.json
  // is still the old one; a retry finds the record and writes nothing.
  lemma LandedWithoutNewline(cfg: Config, dir: RunDir, es: seq<SkillEvent>, e: SkillEvent, w: World, w': World)
    requires Lawful(cfg.codec) && Holds(cfg.codec, dir.log, es) && dir.result == LastResult(es)
    requires Fresh(es, e) && Prepare(cfg, e, w).Write?
    ensures var a := Prepare(cfg, e, w);
      var crashed := CrashIn(cfg, dir, e, w, Writing(|a.line|));
      && crashed.result == dir.result
      && LastResult(Recovered(cfg.codec, crashed.log)) == (if a.stored.result.Some? then a.stored.result else dir.result)
      && AppendTo(cfg, crashed, e, w') == Appended(crashed, [], Ok(a.stored))
  {
    var a := Prepare(cfg, e, w);
    var crashed := CrashIn(cfg, dir, e, w, Writing(|a.line|));
    ReadHeld(cfg.codec, dir.log, es);
    CrashBeforeNewline(cfg, dir, es, e, w);
    ReadLoose(cfg.codec, crashed.log, es, a.stored);
    LastResultSnoc(es, a.stored);
    RetryOfLoose(cfg, crashed, es, e, w, w');
  }

  // The retry of an event whose stored form is the last record, without its newline.
  lemma RetryOfLoose(cfg: Config, dir: RunDir, es: seq<SkillEvent>, e: SkillEvent, w: World, w': World)
    requires Lawful(cfg.codec) && Prepare(cfg, e, w).Write?
    requires HoldsLoose(cfg.codec, dir.log, es, Prepare(cfg, e, w).stored)
    ensures AppendTo(cfg, dir, e, w') == Appended(dir, [], Ok(Prepare(cfg, e, w).stored))
  {
    var x := Prepare(cfg, e, w).stored;
    ReadLoose(cfg.codec, dir.log, es, x);
    PrepareKeepsSequence(cfg, e, w);
    StoredAnswersForEvent(cfg, e, w);
    assert (es + [x])[|es|] == x;
  }
}
