/**
 The durable log of one skill run, as a function of the text in its events file:
 reading with repair of a torn last record, appending with duplicate detection,
 externalising terminal results, and what a crash can leave behind.
 JSON is an abstract pair of functions constrained by `Lawful`.
 */
module RunLog {
  import opened Wrappers
  import opened Text

  datatype Json =
    | JNull
    | JBool(b: bool)
    | JNum(n: real)
    | JStr(s: string)
    | JList(items: seq<Json>)
    | JObject(keys: seq<string>, vals: seq<Json>)
    | JNative(tag: string)  // a Python object the JSON encoder refuses

  type Data = map<string, Json>

  datatype ImageRef = ImageRef(uri: string, camera: Option<string>, sha256: Option<string>)

  datatype ArtifactRef = ArtifactRef(uri: string, artifactType: string, role: Option<string>, name: Option<string>)

  datatype SkillResult = SkillResult(
    success: bool, summary: string, status: string, data: Data, evidenceIds: seq<string>,
    observations: seq<ImageRef>, artifacts: seq<ArtifactRef>,
    failureMode: Option<string>, error: Option<string>, observationError: Option<string>)

  datatype Envelope = Envelope(traceId: string, robotId: Option<string>, timestamp: real)

  datatype SkillEvent = SkillEvent(
    envelope: Envelope, runId: string, sequence: int, name: string, phase: string, timestamp: real,
    progress: Option<real>, frameId: Option<int>, summary: Option<string>, result: Option<SkillResult>)

  datatype SkillCommand = SkillCommand(envelope: Envelope, runId: string, taskId: string, name: string, arguments: Data)

  // One-line JSON of an event (None when the encoder raises), its decoder, and the
  // size in bytes of the compact JSON of a result's data (None when it raises).
  datatype Codec = Codec(
    enc: SkillEvent -> Option<string>,
    dec: string -> Option<SkillEvent>,
    dumpSize: Data -> Option<nat>)

  // What is assumed of JSON: decoding inverts encoding, an encoding is one nonblank
  // line, and neither a proper prefix of an encoding nor an encoding with the start of
  // another one behind it decodes.
  ghost predicate Lawful(c: Codec) { DecodesItself(c) && RefusesPrefixes(c) && RefusesGlued(c) }

  ghost predicate DecodesItself(c: Codec) {
    forall e {:trigger c.enc(e)} :: c.enc(e).Some? ==>
      && c.dec(c.enc(e).value) == Some(e)
      && NoBreak(c.enc(e).value)
      && !Blank(c.enc(e).value)
      && c.enc(e).value[0] == '{'
  }

  ghost predicate RefusesPrefixes(c: Codec) {
    forall e, k: nat {:trigger c.dec(c.enc(e).value[..k])} ::
      c.enc(e).Some? && k < |c.enc(e).value| ==> c.dec(c.enc(e).value[..k]).None?
  }

  ghost predicate RefusesGlued(c: Codec) {
    forall a, b, k: nat {:trigger c.dec(c.enc(a).value + c.enc(b).value[..k])} ::
      c.enc(a).Some? && c.enc(b).Some? && 0 < k <= |c.enc(b).value| ==>
        c.dec(c.enc(a).value + c.enc(b).value[..k]).None?
  }

  datatype Config = Config(codec: Codec, hasArtifactStore: bool, inlineLimit: nat)

  // What the file system answers during one append: the new uri of each pinned
  // observation (None when pinning raises) and the uri of the stored artifact
  // (None when storing raises).
  datatype World = World(pin: nat -> Option<string>, put: Option<string>)

  datatype Error = NotIncreasing(last: int) | CorruptAt(line: nat) | NotEncodable | ArtifactFailed

  // One run's directory: events.jsonl, result.json and command.json.
  datatype RunDir = RunDir(log: string, result: Option<SkillResult>, command: Option<SkillCommand>)

  // ---------------------------------------------------------------- reading

  datatype Record = Record(no: nat, line: string)

  // The nonblank lines with their line numbers.
  function Records(lines: seq<string>, no: nat): seq<Record> {
    if lines == [] then []
    else (if Blank(lines[0]) then [] else [Record(no, lines[0])]) + Records(lines[1..], no + 1)
  }

  datatype Reading = Events(events: seq<SkillEvent>, lines: seq<string>, torn: bool) | Corrupt(no: nat)

  function Prepend(events: seq<SkillEvent>, lines: seq<string>, r: Reading): Reading {
    match r
    case Corrupt(no) => r
    case Events(es, ls, torn) => Events(events + es, lines + ls, torn)
  }

  // A record that does not decode is tolerated only in the last place.
  function ReadFrom(c: Codec, recs: seq<Record>): Reading {
    if recs == [] then Events([], [], false)
    else match c.dec(recs[0].line)
      case None => if |recs| == 1 then Events([], [], true) else Corrupt(recs[0].no)
      case Some(e) => Prepend([e], [recs[0].line], ReadFrom(c, recs[1..]))
  }

  function ReadText(c: Codec, text: string): Reading { ReadFrom(c, Records(Lines(text), 1)) }

  function Recovered(c: Codec, text: string): seq<SkillEvent> {
    match ReadText(c, text)
    case Events(es, _, _) => es
    case Corrupt(_) => []
  }

  // ---------------------------------------------------------------- externalising

  const TRACE_KEYS: set<string> := {"steps", "vla_history", "vln_history", "model_outputs"}
  const KEPT_KEYS: set<string> := {
    "termination_reason", "option_completed", "subgoal_succeeded",
    "before_frame_id", "after_frame_id", "steps_used", "command"}

  function PinAll(refs: seq<ImageRef>, pin: nat -> Option<string>): (r: seq<ImageRef>)
    ensures |r| == |refs|
  {
    seq(|refs|, i requires 0 <= i < |refs| =>
      match pin(i) case Some(uri) => refs[i].(uri := uri) case None => refs[i])
  }

  predicate StaysInline(cfg: Config, data: Data) {
    && (match cfg.codec.dumpSize(data) case Some(n) => n <= cfg.inlineLimit case None => true)
    && TRACE_KEYS * data.Keys == {}
  }

  function Compact(data: Data, uri: string): Data {
    var kept := map k | k in data && k in KEPT_KEYS :: data[k];
    var counted := if "steps" in data && data["steps"].JList?
                   then kept["steps_executed" := JNum(|data["steps"].items| as real)] else kept;
    counted["execution_trace" := JStr(uri)]
  }

  function Trace(e: SkillEvent, uri: string): ArtifactRef {
    ArtifactRef(uri, "skill_run_trace", Some("execution_trace"), Some(e.runId))
  }

  // The stored form of an event and the artifacts created for it; None when
  // storing the artifact raises.
  function Externalize(cfg: Config, e: SkillEvent, w: World): Option<(SkillEvent, seq<ArtifactRef>)> {
    if e.result.None? || !cfg.hasArtifactStore then Some((e, []))
    else
      var res := e.result.value.(observations := PinAll(e.result.value.observations, w.pin));
      if StaysInline(cfg, res.data) then Some((e.(result := Some(res)), []))
      else match w.put
        case None => None
        case Some(uri) =>
          var art := Trace(e, uri);
          Some((e.(result := Some(res.(data := Compact(res.data, uri), artifacts := res.artifacts + [art]))), [art]))
  }

  predicate HasTrace(artifacts: seq<ArtifactRef>) {
    exists i :: 0 <= i < |artifacts| && artifacts[i].role == Some("execution_trace")
  }

  predicate SameImages(a: seq<ImageRef>, b: seq<ImageRef>) {
    |a| == |b| && forall i :: 0 <= i < |a| ==> a[i].sha256 == b[i].sha256
  }

  predicate Matches(stored: SkillEvent, incoming: SkillEvent) {
    && stored.sequence == incoming.sequence
    && stored.name == incoming.name
    && stored.phase == incoming.phase
    && stored.result.Some?
    && incoming.result.Some?
    && var s, i := stored.result.value, incoming.result.value;
    && s.success == i.success
    && s.status == i.status
    && s.summary == i.summary
    && s.failureMode == i.failureMode
    && s.error == i.error
    && (HasTrace(s.artifacts) || SameImages(s.observations, i.observations))
  }

  // ---------------------------------------------------------------- appending

  predicate Fresh(es: seq<SkillEvent>, e: SkillEvent) {
    es == [] || e.sequence > es[|es| - 1].sequence
  }

  function Repaired(log: string, r: Reading): string
    requires r.Events?
  {
    if r.torn then Unlines(r.lines) else log
  }

  // The record a fresh append would write, and the artifacts it creates first.
  datatype Attempt = Write(stored: SkillEvent, line: string, artifacts: seq<ArtifactRef>)
                   | Refuse(error: Error, artifacts: seq<ArtifactRef>)

  function Prepare(cfg: Config, e: SkillEvent, w: World): Attempt {
    match Externalize(cfg, e, w)
    case None => Refuse(ArtifactFailed, [])
    case Some((x, arts)) =>
      match cfg.codec.enc(x)
      case None => Refuse(NotEncodable, arts)
      case Some(line) => Write(x, line, arts)
  }

  function Retried(last: SkillEvent, e: SkillEvent): Result<SkillEvent, Error> {
    if e == last || Matches(last, e) then Ok(last) else Err(NotIncreasing(last.sequence))
  }

  datatype Appended = Appended(dir: RunDir, artifacts: seq<ArtifactRef>, answer: Result<SkillEvent, Error>)

  function AppendTo(cfg: Config, dir: RunDir, e: SkillEvent, w: World): Appended {
    match ReadText(cfg.codec, dir.log)
    case Corrupt(no) => Appended(dir, [], Err(CorruptAt(no)))
    case Events(es, lines, torn) =>
      var base := dir.(log := Repaired(dir.log, Events(es, lines, torn)));
      if !Fresh(es, e) then Appended(base, [], Retried(es[|es| - 1], e))
      else match Prepare(cfg, e, w)
        case Refuse(err, arts) => Appended(base, arts, Err(err))
        case Write(x, line, arts) =>
          Appended(RunDir(base.log + line + "\n", if x.result.Some? then x.result else dir.result, dir.command),
                   arts, Ok(x))
  }

  // ---------------------------------------------------------------- crashing

  // Where a crash stops an append: before the repair is renamed into place, after
  // `landed` characters of the record and its newline reached the file, or after
  // result.json was replaced as well.
  datatype Cut = BeforeRepair | Writing(landed: nat) | ResultWritten

  function CrashIn(cfg: Config, dir: RunDir, e: SkillEvent, w: World, cut: Cut): RunDir {
    match ReadText(cfg.codec, dir.log)
    case Corrupt(_) => dir
    case Events(es, lines, torn) =>
      if cut.BeforeRepair? then dir
      else
        var base := dir.(log := Repaired(dir.log, Events(es, lines, torn)));
        if !Fresh(es, e) then base
        else match Prepare(cfg, e, w)
          case Refuse(_, _) => base
          case Write(x, line, _) =>
            if cut.Writing? then
              base.(log := base.log + (if cut.landed <= |line| then line[..cut.landed] else line + "\n"))
            else AppendTo(cfg, dir, e, w).dir
  }

  // The one cut that loses only the newline of a complete record.
  predicate LosesNewline(cfg: Config, dir: RunDir, e: SkillEvent, w: World, cut: Cut) {
    && Fresh(Recovered(cfg.codec, dir.log), e)
    && Prepare(cfg, e, w).Write?
    && cut == Writing(|Prepare(cfg, e, w).line|)
  }

  datatype Step = Append(event: SkillEvent, world: World)
                | Crash(event: SkillEvent, world: World, cut: Cut)
                | Read

  function Exec(cfg: Config, dir: RunDir, steps: seq<Step>): RunDir
    decreases |steps|
  {
    if steps == [] then dir
    else Exec(cfg, StepDir(cfg, dir, steps[0]), steps[1..])
  }

  function StepDir(cfg: Config, dir: RunDir, step: Step): RunDir {
    match step
    case Append(e, w) => AppendTo(cfg, dir, e, w).dir
    case Crash(e, w, cut) => CrashIn(cfg, dir, e, w, cut)
    case Read => dir
  }

  // The last record is complete but its newline is missing.
  predicate LooseText(c: Codec, text: string) {
    && text != "" && text[|text| - 1] != '\n'
    && ReadText(c, text).Events? && !ReadText(c, text).torn
  }

  // The step gets at least one character of a new record into the file.
  predicate Writes(cfg: Config, dir: RunDir, step: Step) {
    && !step.Read? && Fresh(Recovered(cfg.codec, dir.log), step.event) && Prepare(cfg, step.event, step.world).Write?
    && (step.Append? || step.cut.ResultWritten? || (step.cut.Writing? && step.cut.landed > 0))
  }

  // The step writes onto a record that lost its newline.
  predicate Glues(cfg: Config, dir: RunDir, step: Step) { LooseText(cfg.codec, dir.log) && Writes(cfg, dir, step) }

  predicate NeverGlues(cfg: Config, dir: RunDir, steps: seq<Step>)
    decreases |steps|
  {
    steps != [] ==> !Glues(cfg, dir, steps[0]) && NeverGlues(cfg, StepDir(cfg, dir, steps[0]), steps[1..])
  }

  // Whatever is readable at some moment of the run is readable after the next step.
  predicate NeverShrinks(cfg: Config, dir: RunDir, steps: seq<Step>)
    decreases |steps|
  {
    steps != [] ==>
      var next := StepDir(cfg, dir, steps[0]);
      Recovered(cfg.codec, dir.log) <= Recovered(cfg.codec, next.log) && NeverShrinks(cfg, next, steps[1..])
  }

  // What one step reports as newly accepted: the stored form of a fresh append that succeeds.
  function AckOf(cfg: Config, dir: RunDir, step: Step): seq<SkillEvent> {
    if step.Append? && Fresh(Recovered(cfg.codec, dir.log), step.event)
    then match AppendTo(cfg, dir, step.event, step.world).answer case Ok(x) => [x] case Err(_) => []
    else []
  }

  function Acked(cfg: Config, dir: RunDir, steps: seq<Step>): seq<SkillEvent>
    decreases |steps|
  {
    if steps == [] then []
    else AckOf(cfg, dir, steps[0]) + Acked(cfg, StepDir(cfg, dir, steps[0]), steps[1..])
  }

  function Crashes(steps: seq<Step>): nat {
    if steps == [] then 0 else (if steps[0].Crash? then 1 else 0) + Crashes(steps[1..])
  }

  // ---------------------------------------------------------------- the list machine

  // The same run on a list of events: no text, no torn records, no repair.  All it has to
  // remember beside the list is whether the last record is loose, without its newline.
  datatype Kept = Kept(events: seq<SkillEvent>, loose: bool)

  // What writing onto a loose record leaves: both records are unreadable.
  function Spoiled(k: Kept): Kept { if k.events == [] then k else Kept(k.events[..|k.events| - 1], false) }

  function Written(k: Kept, x: SkillEvent): Kept {
    if k.loose then Spoiled(k) else Kept(k.events + [x], false)
  }

  // What is left when a crash let `landed` characters of a record and its newline through.
  function Partly(k: Kept, a: Attempt, landed: nat): Kept
    requires a.Write?
  {
    if landed > |a.line| then Written(k, a.stored)
    else if k.loose then if landed == 0 then k else Spoiled(k)
    else if landed == |a.line| then Kept(k.events + [a.stored], true)
    else k
  }

  function KeptStep(cfg: Config, k: Kept, step: Step): Kept {
    if step.Read? || !Fresh(k.events, step.event) || !Prepare(cfg, step.event, step.world).Write? then k
    else
      var a := Prepare(cfg, step.event, step.world);
      if step.Append? || step.cut.ResultWritten? then Written(k, a.stored)
      else if step.cut.BeforeRepair? then k
      else Partly(k, a, step.cut.landed)
  }

  function KeptExec(cfg: Config, k: Kept, steps: seq<Step>): Kept
    decreases |steps|
  {
    if steps == [] then k else KeptExec(cfg, KeptStep(cfg, k, steps[0]), steps[1..])
  }
}
