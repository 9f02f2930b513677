/** What an accepted append stores, field by field, and which logs it refuses. */
module StoredEvents {
  import opened Wrappers
  import opened Text
  import opened RunLog
  import opened RunLogProofs

  // ---------------------------------------------------------------- what is stored

  // The data is too big for the log, or it carries a trace.
  predicate TooMuch(cfg: Config, data: Data) {
    || (cfg.codec.dumpSize(data).Some? && cfg.codec.dumpSize(data).value > cfg.inlineLimit)
    || "steps" in data || "vla_history" in data || "vln_history" in data || "model_outputs" in data
  }

  // Data that moved to the artifact at `uri` leaves behind seven facts, those that were
  // there, the number of its steps, if they were a list, and where the rest is.
  predicate LeftBehind(data: Data, left: Data, uri: string) {
    var facts := {"termination_reason", "option_completed", "subgoal_succeeded", "before_frame_id",
                  "after_frame_id", "steps_used", "command"};
    && (forall k :: k in facts ==> (k in left <==> k in data) && (k in data ==> left[k] == data[k]))
    && ("steps_executed" in left <==> "steps" in data && data["steps"].JList?)
    && ("steps_executed" in left ==> left["steps_executed"] == JNum(|data["steps"].items| as real))
    && "execution_trace" in left && left["execution_trace"] == JStr(uri)
    && forall k :: k in left ==> k in facts || k == "steps_executed" || k == "execution_trace"
  }

  // Every observation has the uri it was pinned to, or its own where pinning raised.
  predicate Pinned(given: seq<ImageRef>, stored: seq<ImageRef>, pin: nat -> Option<string>) {
    && |stored| == |given|
    && forall i :: 0 <= i < |given| ==>
         && (pin(i).Some? ==> stored[i] == ImageRef(pin(i).value, given[i].camera, given[i].sha256))
         && (pin(i).None? ==> stored[i] == given[i])
  }

  // The stored result of an event whose artifacts have a store, and the artifacts made for it.
  predicate ResultStored(cfg: Config, e: SkillEvent, w: World, stored: SkillResult, arts: seq<ArtifactRef>)
    requires e.result.Some?
  {
    var given := e.result.value;
    && stored == given.(observations := stored.observations, data := stored.data, artifacts := given.artifacts + arts)
    && Pinned(given.observations, stored.observations, w.pin)
    && if TooMuch(cfg, given.data) then
         && w.put.Some?
         && arts == [ArtifactRef(w.put.value, "skill_run_trace", Some("execution_trace"), Some(e.runId))]
         && LeftBehind(given.data, stored.data, w.put.value)
       else arts == [] && stored.data == given.data
  }

  lemma StaysUnlessTooMuch(cfg: Config, data: Data)
    ensures StaysInline(cfg, data) <==> !TooMuch(cfg, data)
  {
    assert forall k :: k in TRACE_KEYS * data.Keys <==> k in TRACE_KEYS && k in data;
    if !TooMuch(cfg, data) { assert TRACE_KEYS * data.Keys == {}; }
    if StaysInline(cfg, data) {
      forall k | k in TRACE_KEYS ensures k !in data { assert k !in TRACE_KEYS * data.Keys; }
    }
  }

  lemma CompactLeaves(data: Data, uri: string)
    ensures LeftBehind(data, Compact(data, uri), uri)
  {
  }

  lemma ResultIsStored(cfg: Config, e: SkillEvent, w: World)
    requires cfg.hasArtifactStore && e.result.Some? && Externalize(cfg, e, w).Some?
    ensures var (x, arts) := Externalize(cfg, e, w).value;
      x == e.(result := x.result) && x.result.Some? && ResultStored(cfg, e, w, x.result.value, arts)
  {
    var given := e.result.value;
    StaysUnlessTooMuch(cfg, given.data);
    assert given.artifacts + [] == given.artifacts;
    if TooMuch(cfg, given.data) { CompactLeaves(given.data, w.put.value); }
  }

  // What an accepted append of a new event leaves: the log gains the event whose result is
  // the stored one, result.json is that result, and artifacts are made for moved data only.
  lemma AppendStores(cfg: Config, dir: RunDir, es: seq<SkillEvent>, e: SkillEvent, w: World)
    requires Lawful(cfg.codec) && Holds(cfg.codec, dir.log, es) && Fresh(es, e)
    requires AppendTo(cfg, dir, e, w).answer.Ok?
    ensures var r := AppendTo(cfg, dir, e, w);
      var x := r.answer.value;
      && Recovered(cfg.codec, r.dir.log) == es + [x]
      && r.dir.result == (if e.result.Some? then x.result else dir.result)
      && x == e.(result := x.result) && (x.result.Some? <==> e.result.Some?)
      && if e.result.Some? && cfg.hasArtifactStore then ResultStored(cfg, e, w, x.result.value, r.artifacts)
         else x == e && r.artifacts == []
  {
    var x := AppendTo(cfg, dir, e, w).answer.value;
    ReadHeld(cfg.codec, dir.log, es);
    FreshAppend(cfg, dir, es, e, w);
    AppendStep(cfg, dir, es, e, w);
    ReadHeld(cfg.codec, AppendTo(cfg, dir, e, w).dir.log, es + [x]);
    if e.result.Some? && cfg.hasArtifactStore { ResultIsStored(cfg, e, w); }
  }

  // A new event is refused exactly when its data has to move and storing it raises, or
  // when its stored form cannot be encoded; then neither the events nor result.json change.
  lemma AppendRefusedIff(cfg: Config, dir: RunDir, es: seq<SkillEvent>, e: SkillEvent, w: World)
    requires Lawful(cfg.codec) && Holds(cfg.codec, dir.log, es) && Fresh(es, e)
    ensures var r := AppendTo(cfg, dir, e, w);
      var moved := cfg.hasArtifactStore && e.result.Some? && TooMuch(cfg, e.result.value.data);
      && (r.answer == Err(ArtifactFailed) <==> moved && w.put.None?)
      && (r.answer.Err? ==> r.answer.error in {ArtifactFailed, NotEncodable})
      && (r.answer.Err? ==> Recovered(cfg.codec, r.dir.log) == es && r.dir.result == dir.result)
      && (r.answer == Err(NotEncodable) ==> (r.artifacts != [] <==> moved))
  {
    ReadHeld(cfg.codec, dir.log, es);
    AppendStep(cfg, dir, es, e, w);
    if e.result.Some? { StaysUnlessTooMuch(cfg, e.result.value.data); }
    if AppendTo(cfg, dir, e, w).answer.Err? { ReadHeld(cfg.codec, AppendTo(cfg, dir, e, w).dir.log, es); }
  }

  // ---------------------------------------------------------------- corrupt logs

  // More than spaces is on the line.
  predicate Written(line: string) { exists k :: 0 <= k < |line| && line[k] != ' ' && line[k] != '\t' && line[k] != '\r' }

  predicate Bad(c: Codec, line: string) { Written(line) && c.dec(line).None? }

  // Line k is the first that does not decode, and something follows it.
  ghost predicate BadInside(c: Codec, lines: seq<string>, k: int) {
    && 0 <= k < |lines| && Bad(c, lines[k])
    && (forall i :: 0 <= i < k ==> !Bad(c, lines[i]))
    && exists j :: k < j < |lines| && Written(lines[j])
  }

  lemma {:induction false} NoRecordsIff(lines: seq<string>, no: nat)
    ensures Records(lines, no) == [] <==> forall j :: 0 <= j < |lines| ==> !Written(lines[j])
  {
    if lines != [] {
      NoRecordsIff(lines[1..], no + 1);
      assert forall j :: 1 <= j < |lines| ==> lines[j] == lines[1..][j - 1];
      assert forall j :: 0 <= j < |lines[1..]| ==> lines[1..][j] == lines[j + 1];
    }
  }

  lemma BadBehind(c: Codec, lines: seq<string>, k: int)
    requires lines != [] && !Bad(c, lines[0])
    ensures BadInside(c, lines, k) <==> BadInside(c, lines[1..], k - 1)
  {
    if BadInside(c, lines, k) {
      var j :| k < j < |lines| && Written(lines[j]);
      assert lines[1..][j - 1] == lines[j];
    }
    if BadInside(c, lines[1..], k - 1) {
      var j :| k - 1 < j < |lines[1..]| && Written(lines[1..][j]);
      assert lines[j + 1] == lines[1..][j];
      assert forall i :: 1 <= i < k ==> lines[i] == lines[1..][i - 1];
    }
  }

  lemma BadFirst(c: Codec, lines: seq<string>, no: nat, n: nat)
    requires lines != [] && Bad(c, lines[0])
    ensures ReadFrom(c, Records(lines, no)) == Corrupt(n) <==> BadInside(c, lines, n - no)
  {
    var rest := Records(lines[1..], no + 1);
    NoRecordsIff(lines[1..], no + 1);
    assert Records(lines, no) == [Record(no, lines[0])] + rest;
    assert forall j :: 1 <= j < |lines| ==> lines[j] == lines[1..][j - 1];
    assert forall j :: 0 <= j < |lines[1..]| ==> lines[1..][j] == lines[j + 1];
  }

  lemma GoodFirst(c: Codec, lines: seq<string>, no: nat, n: nat)
    requires lines != [] && !Bad(c, lines[0])
    ensures ReadFrom(c, Records(lines, no)) == Corrupt(n) <==> ReadFrom(c, Records(lines[1..], no + 1)) == Corrupt(n)
  {
    var rest := Records(lines[1..], no + 1);
    if Blank(lines[0]) {
      assert [] + rest == rest;
    } else {
      assert ([Record(no, lines[0])] + rest)[1..] == rest;
    }
  }

  lemma {:induction false} CorruptLineIff(c: Codec, lines: seq<string>, no: nat, n: nat)
    ensures ReadFrom(c, Records(lines, no)) == Corrupt(n) <==> BadInside(c, lines, n - no)
  {
    if lines != [] {
      if Bad(c, lines[0]) {
        BadFirst(c, lines, no, n);
      } else {
        GoodFirst(c, lines, no, n);
        CorruptLineIff(c, lines[1..], no + 1, n);
        BadBehind(c, lines, n - no);
      }
    }
  }

  // An append is refused for corruption exactly when a line that does not decode stands
  // before another record; the line reported is the first such one, and nothing changes.
  lemma CorruptRefusedIff(cfg: Config, dir: RunDir, e: SkillEvent, w: World, n: nat)
    ensures AppendTo(cfg, dir, e, w).answer == Err(CorruptAt(n)) <==> BadInside(cfg.codec, Lines(dir.log), n - 1)
    ensures AppendTo(cfg, dir, e, w).answer == Err(CorruptAt(n)) ==>
              AppendTo(cfg, dir, e, w).dir == dir && AppendTo(cfg, dir, e, w).artifacts == []
  {
    CorruptLineIff(cfg.codec, Lines(dir.log), 1, n);
  }
}
