/** The file-backed store: one directory per run, updated in place by its methods. */
module RunStore {
  import opened Wrappers
  import opened Text
  import opened RunLog
  import RunLogProofs

  class FileRunStore {
    const cfg: Config
    var dirs: map<string, RunDir>
    var artifacts: seq<ArtifactRef>  // every execution trace ever handed to the artifact store

    constructor (codec: Codec, hasArtifactStore: bool, inlineResultLimit: int)
      ensures dirs == map[] && artifacts == []
      ensures cfg.codec == codec && cfg.hasArtifactStore == hasArtifactStore
      ensures cfg.inlineLimit >= 1024 && cfg.inlineLimit >= inlineResultLimit
      ensures cfg.inlineLimit == 1024 || cfg.inlineLimit == inlineResultLimit
    {
      cfg := Config(codec, hasArtifactStore, if inlineResultLimit > 1024 then inlineResultLimit else 1024);
      dirs, artifacts := map[], [];
    }

    function Dir(runId: string): RunDir
      reads this
    {
      if runId in dirs then dirs[runId] else RunDir("", None, None)
    }

    // The loop over the nonblank records; a torn last record is dropped from the
    // file when `repair` is set.
    method ReadEvents(runId: string, repair: bool) returns (r: Result<seq<SkillEvent>, Error>)
      modifies this`dirs
      ensures var reading := ReadText(cfg.codec, old(Dir(runId)).log);
        && r == (match reading case Events(es, _, _) => Ok(es) case Corrupt(no) => Err(CorruptAt(no)))
        && dirs == if repair && reading.Events? && reading.torn
                   then old(dirs)[runId := old(Dir(runId)).(log := Unlines(reading.lines))]
                   else old(dirs)
    {
      var records := Records(Lines(Dir(runId).log), 1);
      var events: seq<SkillEvent> := [];
      var validLines: seq<string> := [];
      ghost var reading := ReadFrom(cfg.codec, records);
      assert reading == Prepend([], [], ReadFrom(cfg.codec, records[0..])) by {
        assert records[0..] == records;
        if reading.Events? { assert [] + reading.events == reading.events && [] + reading.lines == reading.lines; }
      }
      var i := 0;
      while i < |records|
        invariant 0 <= i <= |records| && dirs == old(dirs)
        invariant reading == Prepend(events, validLines, ReadFrom(cfg.codec, records[i..]))
      {
        var rest := records[i..];
        match cfg.codec.dec(records[i].line) {
          case None =>
            if i != |records| - 1 {
              return Err(CorruptAt(records[i].no));
            }
            assert reading.events == events && reading.lines == validLines;
            if repair {
              dirs := dirs[runId := Dir(runId).(log := Unlines(validLines))];
            }
            return Ok(events);
          case Some(e) =>
            assert rest[1..] == records[i + 1..];
            RunLogProofs.PrependTwice(events, [e], validLines, [records[i].line], ReadFrom(cfg.codec, records[i + 1..]));
            events := events + [e];
            validLines := validLines + [records[i].line];
        }
        i := i + 1;
      }
      assert records[i..] == [];
      assert events + [] == events && validLines + [] == validLines;
      return Ok(events);
    }

    // Pins every observation, keeping the original where pinning raised.
    method PinObservations(observations: seq<ImageRef>, w: World) returns (pinned: seq<ImageRef>)
      ensures pinned == PinAll(observations, w.pin)
      ensures RunLog.SameImages(pinned, observations)
    {
      pinned := [];
      for i := 0 to |observations|
        invariant pinned == PinAll(observations, w.pin)[..i]
      {
        match w.pin(i) {
          case Some(uri) => pinned := pinned + [observations[i].(uri := uri)];
          case None => pinned := pinned + [observations[i]];
        }
      }
    }

    method ExternalizeTerminalResult(e: SkillEvent, w: World) returns (r: Result<SkillEvent, Error>)
      modifies this`artifacts
      ensures match Externalize(cfg, e, w)
        case None => r == Err(ArtifactFailed) && artifacts == old(artifacts)
        case Some((x, arts)) => r == Ok(x) && artifacts == old(artifacts) + arts
    {
      if e.result.None? || !cfg.hasArtifactStore {
        return Ok(e);
      }
      var result := e.result.value;
      var pinned := PinObservations(result.observations, w);
      result := result.(observations := pinned);
      var size := match cfg.codec.dumpSize(result.data) case Some(n) => n case None => 0;
      if size <= cfg.inlineLimit && TRACE_KEYS * result.data.Keys == {} {
        return Ok(e.(result := Some(result)));
      }
      match w.put {
        case None => return Err(ArtifactFailed);
        case Some(uri) =>
          var artifact := Trace(e, uri);
          artifacts := artifacts + [artifact];
          result := result.(data := Compact(result.data, uri), artifacts := result.artifacts + [artifact]);
          return Ok(e.(result := Some(result)));
      }
    }

    method WriteRecord(runId: string, line: string)
      modifies this`dirs
      ensures dirs == old(dirs)[runId := old(Dir(runId)).(log := old(Dir(runId)).log + line + "\n")]
    {
      dirs := dirs[runId := Dir(runId).(log := Dir(runId).log + line + "\n")];
    }

    method WriteResult(runId: string, result: SkillResult)
      modifies this`dirs
      ensures dirs == old(dirs)[runId := old(Dir(runId)).(result := Some(result))]
    {
      dirs := dirs[runId := Dir(runId).(result := Some(result))];
    }

    // The second half of an append: store the traces, write the record, then the result.
    method WriteFresh(e: SkillEvent, w: World) returns (r: Result<SkillEvent, Error>)
      modifies this
      ensures match Prepare(cfg, e, w)
        case Refuse(error, arts) => r == Err(error) && dirs == old(dirs) && artifacts == old(artifacts) + arts
        case Write(x, line, arts) =>
          && r == Ok(x)
          && artifacts == old(artifacts) + arts
          && var dir := old(Dir(e.runId));
          && dirs == old(dirs)[e.runId :=
               RunDir(dir.log + line + "\n", if x.result.Some? then x.result else dir.result, dir.command)]
    {
      var stored := ExternalizeTerminalResult(e, w);
      match stored {
        case Err(error) => return Err(error);
        case Ok(x) =>
          match cfg.codec.enc(x) {
            case None => return Err(NotEncodable);
            case Some(line) =>
              WriteRecord(e.runId, line);
              if x.result.Some? {
                WriteResult(e.runId, x.result.value);
              }
              return Ok(x);
          }
      }
    }

    method AppendEvent(e: SkillEvent, w: World) returns (r: Result<SkillEvent, Error>)
      modifies this
      ensures var spec := AppendTo(cfg, old(Dir(e.runId)), e, w);
        && r == spec.answer
        && dirs == old(dirs)[e.runId := spec.dir]
        && artifacts == old(artifacts) + spec.artifacts
    {
      ghost var before := Dir(e.runId);
      ghost var reading := ReadText(cfg.codec, before.log);
      dirs := dirs[e.runId := Dir(e.runId)];
      var read := ReadEvents(e.runId, true);
      match read {
        case Err(error) => return Err(error);
        case Ok(events) =>
          assert reading.Events? && reading.events == events;
          ghost var base := before.(log := Repaired(before.log, reading));
          assert dirs == old(dirs)[e.runId := base];
          assert Dir(e.runId) == base;
          if events != [] && e.sequence <= events[|events| - 1].sequence {
            var last := events[|events| - 1];
            if e == last || Matches(last, e) { return Ok(last); }
            return Err(NotIncreasing(last.sequence));
          }
          assert Fresh(events, e);
          r := WriteFresh(e, w);
          if Prepare(cfg, e, w).Write? { Overwritten(old(dirs), e.runId, base, Dir(e.runId)); }
      }
    }

    static lemma Overwritten(m: map<string, RunDir>, k: string, a: RunDir, b: RunDir)
      ensures m[k := a][k := b] == m[k := b]
    {
    }

    // The first submission of a run wins; only an equal command may be repeated.
    method RecordSubmission(command: SkillCommand) returns (accepted: bool)
      modifies this`dirs
      ensures accepted <==> old(Dir(command.runId)).command in {None, Some(command)}
      ensures accepted ==> dirs == old(dirs)[command.runId := old(Dir(command.runId)).(command := Some(command))]
      ensures !accepted ==> dirs == old(dirs)
    {
      var dir := Dir(command.runId);
      match dir.command {
        case Some(existing) =>
          assert dirs == dirs[command.runId := dir];
          return existing == command;
        case None =>
          dirs := dirs[command.runId := dir.(command := Some(command))];
          return true;
      }
    }
  }
}
