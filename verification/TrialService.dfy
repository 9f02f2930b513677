/**
 The simulator trial service: the manager that owns the one active environment and its
 event ledger, and the request handlers that run it under the service lock and the
 shared resource lock, in every interleaving.
 */
module TrialService {
  import opened Wrappers

  // ---------------------------------------------------------------- the episode manager

  const CAMERAS: set<string> := {"robot0_agentview_left", "robot0_agentview_right", "robot0_eye_in_hand"}

  // A picture by camera; false stands for pixels that no PNG image can be made of.
  datatype Observation = Observation(stateOk: bool, pixels: map<string, bool>)

  // _validate_observation counts the cameras and does not look at the pixels.
  predicate Valid(o: Observation) { o.stateOk && |o.pixels| == 3 }

  // The response needs an image of every camera it knows that is there.
  predicate Showable(o: Observation) { forall c :: c in CAMERAS && c in o.pixels ==> o.pixels[c] }

  // `envSteps` counts how often the environment itself was stepped.
  datatype Trial = Trial(
    id: string, observation: Observation, frame: nat, done: bool, success: bool, reward: real, envSteps: nat)

  // `against` is the frame the request named; the stored record does not keep it.
  datatype Event = TrialBegin(id: string) | ActionTaken(frame: nat, done: bool, reward: real, against: int) | TrialEnd(id: string)

  datatype Error = TrialActive | InvalidTask | ResetFailed | TrialUnavailable | EpisodeDone | StaleAction
                 | ActionSchema | ActionOutOfBounds | EnvironmentRaised | ObservationSchema

  // What building the environment gives.
  datatype Reset = Reset(ok: bool, observation: Observation)

  // What the environment answers to one step.
  datatype Reaction = Raised | Reacted(observation: Observation, reward: real, terminated: bool, truncated: bool, success: bool)

  datatype Request = Request(expected: int, shapeOk: bool, inSpace: bool)

  datatype Manager = Manager(active: Option<Trial>, events: seq<Event>)

  function BeginTrial(m: Manager, id: string, allowed: bool, reset: Reset): (Manager, Result<Trial, Error>) {
    if m.active.Some? then (m, Err(TrialActive))
    else if !allowed then (m, Err(InvalidTask))
    else if !reset.ok then (m, Err(ResetFailed))
    else if !Valid(reset.observation) then (m, Err(ObservationSchema))
    else
      var t := Trial(id, reset.observation, 0, false, false, 0.0, 0);
      (Manager(Some(t), [TrialBegin(id)]), Ok(t))
  }

  function StepTrial(m: Manager, q: Request, r: Reaction): (Manager, Result<Trial, Error>) {
    if m.active.None? then (m, Err(TrialUnavailable))
    else
      var t := m.active.value;
      if t.done then (m, Err(EpisodeDone))
      else if q.expected != t.frame then (m, Err(StaleAction))
      else if !q.shapeOk then (m, Err(ActionSchema))
      else if !q.inSpace then (m, Err(ActionOutOfBounds))
      else if r.Raised? then (m.(active := Some(t.(envSteps := t.envSteps + 1))), Err(EnvironmentRaised))
      else if !Valid(r.observation) then (m.(active := Some(t.(envSteps := t.envSteps + 1))), Err(ObservationSchema))
      else
        var after := Trial(t.id, r.observation, t.frame + 1, r.terminated || r.truncated, r.success, r.reward, t.envSteps + 1);
        (Manager(Some(after), m.events + [ActionTaken(after.frame, after.done, r.reward, q.expected)]), Ok(after))
  }

  function EndTrial(m: Manager): (Manager, bool) {
    match m.active
    case None => (m, false)
    case Some(t) => (Manager(None, m.events + [TrialEnd(t.id)]), true)
  }

  class EpisodeManager {
    var active: Option<Trial>
    var events: seq<Event>

    function State(): Manager reads this { Manager(active, events) }

    constructor () ensures State() == Manager(None, []) { active, events := None, []; }

    method Begin(id: string, allowed: bool, reset: Reset) returns (r: Result<Trial, Error>)
      modifies this
      ensures (State(), r) == BeginTrial(old(State()), id, allowed, reset)
    {
      if active.Some? { return Err(TrialActive); }
      if !allowed { return Err(InvalidTask); }
      if !reset.ok { return Err(ResetFailed); }
      if !Valid(reset.observation) { return Err(ObservationSchema); }
      active := Some(Trial(id, reset.observation, 0, false, false, 0.0, 0));
      events := [TrialBegin(id)];
      return Ok(active.value);
    }

    method Step(q: Request, env: Reaction) returns (r: Result<Trial, Error>)
      modifies this
      ensures (State(), r) == StepTrial(old(State()), q, env)
    {
      if active.None? { return Err(TrialUnavailable); }
      var trial := active.value;
      if trial.done { return Err(EpisodeDone); }
      if q.expected != trial.frame { return Err(StaleAction); }
      if !q.shapeOk { return Err(ActionSchema); }
      if !q.inSpace { return Err(ActionOutOfBounds); }
      trial := trial.(envSteps := trial.envSteps + 1);
      active := Some(trial);
      if env.Raised? { return Err(EnvironmentRaised); }
      if !Valid(env.observation) { return Err(ObservationSchema); }
      trial := trial.(observation := env.observation);
      trial := trial.(frame := trial.frame + 1, done := env.terminated || env.truncated);
      trial := trial.(success := env.success, reward := env.reward);
      active := Some(trial);
      events := events + [ActionTaken(trial.frame, trial.done, env.reward, q.expected)];
      return Ok(trial);
    }

    method End() returns (ended: bool)
      modifies this
      ensures (State(), ended) == EndTrial(old(State()))
    {
      var trial := active;
      active := None;
      if trial.None? { return false; }
      events := events + [TrialEnd(trial.value.id)];
      return true;
    }
  }

  // The ledger of an active trial: its beginning, then one action for every frame from 1
  // on, each accepted against the frame just before it, and nothing after a final one.
  predicate Ledger(m: Manager) {
    m.active.Some? ==>
      var t := m.active.value;
      && |m.events| == t.frame + 1
      && m.events[0] == TrialBegin(t.id)
      && (forall k :: 1 <= k < |m.events| ==>
            && m.events[k].ActionTaken? && m.events[k].frame == k && m.events[k].against == k - 1
            && (m.events[k].done ==> k == t.frame))
      && (t.done <==> t.frame > 0 && m.events[t.frame].ActionTaken? && m.events[t.frame].done)
      && t.frame <= t.envSteps && Valid(t.observation)
  }

  lemma LedgerKept(m: Manager, id: string, allowed: bool, reset: Reset, q: Request, r: Reaction)
    requires Ledger(m)
    ensures Ledger(BeginTrial(m, id, allowed, reset).0) && Ledger(StepTrial(m, q, r).0) && Ledger(EndTrial(m).0)
  {
  }

  // The request is let through to the environment.
  predicate Admitted(m: Manager, q: Request) {
    m.active.Some? && !m.active.value.done && q == Request(m.active.value.frame, true, true)
  }

  // The environment was stepped and gave no observation that could be taken.
  predicate Fruitless(r: Reaction) { r.Raised? || !Valid(r.observation) }

  // How many environment steps the frame counter does not know of.
  function Behind(m: Manager): int
    requires m.active.Some?
  {
    m.active.value.envSteps - m.active.value.frame
  }

  // A request lets the frame counter fall behind the environment exactly when it is
  // admitted and the environment raises or its observation is refused; then it falls
  // behind by one, nothing is recorded, and the same request is admitted again.
  lemma FallsBehindIff(m: Manager, q: Request, r: Reaction)
    requires m.active.Some?
    ensures var (after, answer) := StepTrial(m, q, r);
      && after.active.Some?
      && Behind(after) == Behind(m) + (if Admitted(m, q) && Fruitless(r) then 1 else 0)
      && (Admitted(m, q) && Fruitless(r) ==> answer.Err? && after.events == m.events && Admitted(after, q))
  {
  }

  // ---------------------------------------------------------------- the service

  datatype Resource = Free | Ours | Elsewhere  // the lock shared with task-level rollouts

  // Where a request handler stands.  Everything but Queued holds the service lock.
  datatype Pc =
    | Queued(job: Job)
    | AwaitResource(id: string)  // a begin that found no trial and an unlocked resource
    | Building(id: string)       // owns the resource; the environment is being made
    | Preparing                  // the trial is active; the prepare hook runs
    | Unwinding                  // a begin that failed after taking the resource
    | Stepping(request: Request)
    | Ending                     // an active trial is being ended
    | Releasing                  // the trial is ended; the resource goes next
    | Answering(begin: bool)     // only the response of a begin or a step is left

  datatype Job = Begin(id: string) | Step(request: Request) | End

  datatype Service = Service(
    lock: Option<nat>, resource: Resource, owns: bool, manager: Manager, tasks: map<nat, Pc>)

  datatype Move =
    | Arrive(task: nat, job: Job)
    | TakeLock(task: nat)
    | TakeResource(task: nat)
    | Build(task: nat, allowed: bool, reset: Reset)
    | Prepare(task: nat, ok: bool)
    | Unwind(task: nat)
    | RunStep(task: nat, reaction: Reaction)
    | RunEnd(task: nat)
    | Release(task: nat)
    | Answer(task: nat)
    | RolloutTakes
    | RolloutReturns

  predicate Enabled(s: Service, m: Move) {
    match m
    case Arrive(t, _) => t !in s.tasks
    case TakeLock(t) => t in s.tasks && s.tasks[t].Queued? && s.lock.None?
    case TakeResource(t) => t in s.tasks && s.tasks[t].AwaitResource? && s.resource.Free?
    case Build(t, _, _) => t in s.tasks && s.tasks[t].Building?
    case Prepare(t, _) => t in s.tasks && s.tasks[t].Preparing?
    case Unwind(t) => t in s.tasks && s.tasks[t].Unwinding?
    case RunStep(t, _) => t in s.tasks && s.tasks[t].Stepping?
    case RunEnd(t) => t in s.tasks && s.tasks[t].Ending?
    case Release(t) => t in s.tasks && s.tasks[t].Releasing?
    case Answer(t) => t in s.tasks && s.tasks[t].Answering?
    case RolloutTakes => s.resource.Free?
    case RolloutReturns => s.resource.Elsewhere?
  }

  // The handler is over: the service lock is free again.
  function Leave(s: Service, t: nat): Service { s.(lock := None, tasks := s.tasks - {t}) }

  // _release_resource
  function GiveBack(s: Service): Service { if s.owns then s.(owns := false, resource := Free) else s }

  function Next(s: Service, m: Move): Service
    requires Enabled(s, m)
  {
    match m
    case Arrive(t, job) => s.(tasks := s.tasks[t := Queued(job)])
    case TakeLock(t) =>
      (match s.tasks[t].job
       case Begin(id) =>
         if s.manager.active.Some? || !s.resource.Free? then Leave(s, t)
         else s.(lock := Some(t), tasks := s.tasks[t := AwaitResource(id)])
       case Step(q) => s.(lock := Some(t), tasks := s.tasks[t := Stepping(q)])
       case End => if s.manager.active.None? then Leave(s, t) else s.(lock := Some(t), tasks := s.tasks[t := Ending]))
    case TakeResource(t) => s.(resource := Ours, owns := true, tasks := s.tasks[t := Building(s.tasks[t].id)])
    case Build(t, allowed, reset) =>
      var (manager, answer) := BeginTrial(s.manager, s.tasks[t].id, allowed, reset);
      s.(manager := manager, tasks := s.tasks[t := if answer.Ok? then Preparing else Unwinding])
    case Prepare(t, ok) => s.(tasks := s.tasks[t := if ok then Answering(true) else Unwinding])
    case Unwind(t) => Leave(GiveBack(s.(manager := EndTrial(s.manager).0)), t)
    case RunStep(t, reaction) =>
      var (manager, answer) := StepTrial(s.manager, s.tasks[t].request, reaction);
      if answer.Ok? then s.(manager := manager, tasks := s.tasks[t := Answering(false)]) else Leave(s.(manager := manager), t)
    case RunEnd(t) => s.(manager := EndTrial(s.manager).0, tasks := s.tasks[t := Releasing])
    case Release(t) => Leave(GiveBack(s), t)
    case Answer(t) => Leave(s, t)
    case RolloutTakes => s.(resource := Elsewhere)
    case RolloutReturns => s.(resource := Free)
  }

  // What the caller of the handler that ends with this move is told: success or failure.
  function Report(s: Service, m: Move): Option<(nat, bool)>
    requires Enabled(s, m)
  {
    match m
    case TakeLock(t) =>
      (match s.tasks[t].job
       case Begin(_) => if s.manager.active.Some? || !s.resource.Free? then Some((t, false)) else None
       case Step(_) => None
       case End => if s.manager.active.None? then Some((t, true)) else None)
    case Unwind(t) => Some((t, false))
    case RunStep(t, reaction) => if StepTrial(s.manager, s.tasks[t].request, reaction).1.Err? then Some((t, false)) else None
    case Release(t) => Some((t, true))
    case Answer(t) => Some((t, s.manager.active.Some? && Showable(s.manager.active.value.observation)))
    case _ => None
  }

  predicate Run(s: Service, moves: seq<Move>, t: Service)
    decreases |moves|
  {
    if moves == [] then s == t else Enabled(s, moves[0]) && Run(Next(s, moves[0]), moves[1..], t)
  }

  const INITIAL := Service(None, Free, false, Manager(None, []), map[])

  // What is owned and active while a handler stands where it stands.
  predicate Fits(s: Service, pc: Pc) {
    match pc
    case Queued(_) => true
    case AwaitResource(_) => !s.owns && s.manager.active.None?
    case Building(_) => s.owns && s.manager.active.None?
    case Preparing => s.owns && s.manager.active.Some? && s.manager.active.value.frame == 0
    case Unwinding => s.owns
    case Ending => s.owns && s.manager.active.Some?
    case Answering(begin) => s.owns && s.manager.active.Some? && (begin ==> s.manager.active.value.frame == 0)
    case Releasing => s.owns && s.manager.active.None?
    case _ => s.owns <==> s.manager.active.Some?
  }

  ghost predicate Locks(s: Service) {
    && (s.owns <==> s.resource == Ours)
    && (forall t :: t in s.tasks && !s.tasks[t].Queued? ==> s.lock == Some(t) && Fits(s, s.tasks[t]))
    && (s.lock.Some? ==> s.lock.value in s.tasks && !s.tasks[s.lock.value].Queued?)
    && (s.lock.None? ==> (s.owns <==> s.manager.active.Some?))
  }

  ghost predicate Inv(s: Service) { Locks(s) && Ledger(s.manager) }

  lemma ArrivalKeepsLocks(s: Service, m: Move)
    requires Locks(s) && Enabled(s, m) && (m.Arrive? || m.TakeLock? || m.RolloutTakes? || m.RolloutReturns?)
    ensures Locks(Next(s, m))
  {
  }

  lemma BeginKeepsLocks(s: Service, m: Move)
    requires Locks(s) && Enabled(s, m) && (m.TakeResource? || m.Build? || m.Prepare? || m.Unwind?)
    ensures Locks(Next(s, m))
  {
  }

  lemma OtherKeepsLocks(s: Service, m: Move)
    requires Locks(s) && Enabled(s, m) && (m.RunStep? || m.RunEnd? || m.Release? || m.Answer?)
    ensures Locks(Next(s, m))
  {
  }

  lemma MoveKeepsLedger(s: Service, m: Move)
    requires Ledger(s.manager) && Enabled(s, m)
    ensures Ledger(Next(s, m).manager)
  {
    match m {
      case Build(t, allowed, reset) => LedgerKept(s.manager, s.tasks[t].id, allowed, reset, Request(0, false, false), Raised);
      case RunStep(t, reaction) => LedgerKept(s.manager, "", false, Reset(false, Observation(false, map[])), s.tasks[t].request, reaction);
      case _ =>
    }
  }

  lemma MoveKeeps(s: Service, m: Move)
    requires Inv(s) && Enabled(s, m)
    ensures Inv(Next(s, m))
  {
    MoveKeepsLedger(s, m);
    if m.Arrive? || m.TakeLock? || m.RolloutTakes? || m.RolloutReturns? {
      ArrivalKeepsLocks(s, m);
    } else if m.TakeResource? || m.Build? || m.Prepare? || m.Unwind? {
      BeginKeepsLocks(s, m);
    } else {
      OtherKeepsLocks(s, m);
    }
  }

  lemma {:induction false} RunKeeps(s: Service, moves: seq<Move>, t: Service)
    requires Inv(s) && Run(s, moves, t)
    ensures Inv(t)
    decreases |moves|
  {
    if moves != [] {
      MoveKeeps(s, moves[0]);
      RunKeeps(Next(s, moves[0]), moves[1..], t);
    }
  }

  // In every interleaving: whenever the service lock is free the resource is owned
  // exactly when a trial is active; at most one handler is past the lock; the ledger of
  // the active trial holds exactly its frames in order.
  lemma EveryRun(moves: seq<Move>, s: Service)
    requires Run(INITIAL, moves, s)
    ensures s.lock.None? ==> (s.resource == Ours <==> s.manager.active.Some?)
    ensures forall a, b :: a in s.tasks && b in s.tasks && !s.tasks[a].Queued? && !s.tasks[b].Queued? ==> a == b
    ensures Ledger(s.manager)
  {
    RunKeeps(INITIAL, moves, s);
  }

  // The handler is a begin that has taken the backend resource.
  predicate TookResource(pc: Pc) { pc.Building? || pc.Preparing? || pc.Unwinding? || pc == Answering(true) }

  // In every run, a begin that fails after taking the resource leaves neither a trial nor
  // the resource exactly when it failed before its response was made.  Otherwise it
  // leaves both: the first observation was valid, but an image of it could not be shown.
  lemma FailedBeginIff(moves: seq<Move>, s: Service, m: Move, t: nat)
    requires Run(INITIAL, moves, s) && Enabled(s, m) && Report(s, m) == Some((t, false))
    requires t in s.tasks && TookResource(s.tasks[t])
    ensures var after := Next(s, m);
      && after.lock.None? && t !in after.tasks
      && (after.manager.active.None? && after.resource == Free <==> !s.tasks[t].Answering?)
      && (s.tasks[t].Answering? ==>
            && after.manager.active.Some? && after.resource == Ours
            && after.manager.active.value.frame == 0
            && Valid(after.manager.active.value.observation) && !Showable(after.manager.active.value.observation))
  {
    RunKeeps(INITIAL, moves, s);
  }

  // Three cameras, one of them without a usable picture: the begin reports failure with
  // the service lock free, the trial active and the resource held.
  lemma UnshowableObservationLeavesBoth()
    ensures var o := Observation(true,
        map["robot0_agentview_left" := false, "robot0_agentview_right" := true, "robot0_eye_in_hand" := true]);
      var moves := [Arrive(0, Begin("t")), TakeLock(0), TakeResource(0), Build(0, true, Reset(true, o)), Prepare(0, true)];
      exists s :: Run(INITIAL, moves, s) && Enabled(s, Answer(0)) && Report(s, Answer(0)) == Some((0, false))
        && var after := Next(s, Answer(0));
           after.lock.None? && after.resource == Ours && after.manager.active.Some? && after.manager.active.value.id == "t"
  {
    var o := Observation(true,
      map["robot0_agentview_left" := false, "robot0_agentview_right" := true, "robot0_eye_in_hand" := true]);
    assert Valid(o) && !Showable(o);
    var m0, m1, m2, m3, m4 := Arrive(0, Begin("t")), TakeLock(0), TakeResource(0), Build(0, true, Reset(true, o)), Prepare(0, true);
    var s1 := Next(INITIAL, m0);
    var s2 := Next(s1, m1);
    var s3 := Next(s2, m2);
    var s4 := Next(s3, m3);
    var s5 := Next(s4, m4);
    RunOne(s4, m4, [], s5);
    RunOne(s3, m3, [m4], s5);
    RunOne(s2, m2, [m3, m4], s5);
    RunOne(s1, m1, [m2, m3, m4], s5);
    RunOne(INITIAL, m0, [m1, m2, m3, m4], s5);
    assert [m0] + [m1, m2, m3, m4] == [m0, m1, m2, m3, m4];
    assert Report(s5, Answer(0)) == Some((0, false));
  }

  lemma RunOne(s: Service, m: Move, rest: seq<Move>, t: Service)
    requires Enabled(s, m) && Run(Next(s, m), rest, t)
    ensures Run(s, [m] + rest, t)
  {
    assert ([m] + rest)[0] == m && ([m] + rest)[1..] == rest;
  }

  // ---------------------------------------------------------------- a step that reports failure

  // A run during all of which handler t is past the service lock.
  predicate RunInside(s: Service, t: nat, moves: seq<Move>, u: Service)
    decreases |moves|
  {
    && Inside(s, t)
    && if moves == [] then s == u else Enabled(s, moves[0]) && RunInside(Next(s, moves[0]), t, moves[1..], u)
  }

  predicate Inside(s: Service, t: nat) { s.lock == Some(t) && t in s.tasks && !s.tasks[t].Queued? }

  // A step handler that took the lock with manager `m` has not asked the environment
  // yet, or has had its request answered and recorded.
  ghost predicate StepStands(m: Manager, q: Request, s: Service, t: nat) {
    && t in s.tasks
    && match s.tasks[t]
       case Stepping(r) => r == q && s.manager == m
       case Answering(begin) => !begin && exists r :: StepTrial(m, q, r).1.Ok? && s.manager == StepTrial(m, q, r).0
       case _ => false
  }

  lemma StepStandsStays(m: Manager, q: Request, s: Service, t: nat, move: Move)
    requires Locks(s) && Enabled(s, move) && StepStands(m, q, s, t) && Inside(Next(s, move), t)
    ensures StepStands(m, q, Next(s, move), t)
  {
    if move == RunStep(t, if move.RunStep? then move.reaction else Raised) {
      assert StepTrial(m, q, move.reaction).1.Ok? && Next(s, move).manager == StepTrial(m, q, move.reaction).0;
    }
  }

  lemma {:induction false} StepStandsRun(m: Manager, q: Request, s: Service, t: nat, moves: seq<Move>, u: Service)
    requires Inv(s) && StepStands(m, q, s, t) && RunInside(s, t, moves, u)
    ensures Inv(u) && StepStands(m, q, u, t)
    decreases |moves|
  {
    if moves != [] {
      MoveKeeps(s, moves[0]);
      StepStandsStays(m, q, s, t, moves[0]);
      StepStandsRun(m, q, Next(s, moves[0]), t, moves[1..], u);
    }
  }

  // The frame, the end mark and the ledger are as before.
  predicate NothingRecorded(before: Manager, after: Manager) {
    && after.events == before.events
    && (after.active.Some? <==> before.active.Some?)
    && (before.active.Some? ==>
          && after.active.value.frame == before.active.value.frame && after.active.value.done == before.active.value.done
          && after.active.value.observation == before.active.value.observation)
  }

  // In every run, a step whose caller is told of a failure leaves frame and ledger as it
  // found them exactly when it failed before its response was made.  Otherwise the
  // request was admitted and its action recorded for the next frame, and only the new
  // observation could not be shown.
  lemma FailedStepIff(moves: seq<Move>, s: Service, t: nat, inside: seq<Move>, u: Service, last: Move)
    requires Run(INITIAL, moves, s) && Enabled(s, TakeLock(t)) && s.tasks[t].job.Step?
    requires RunInside(Next(s, TakeLock(t)), t, inside, u)
    requires Enabled(u, last) && Report(u, last) == Some((t, false))
    ensures var before, after := s.manager, Next(u, last).manager;
      && t in u.tasks
      && (NothingRecorded(before, after) <==> !u.tasks[t].Answering?)
      && (u.tasks[t].Answering? ==>
            && before.active.Some? && after.active.Some? && Admitted(before, s.tasks[t].job.request)
            && after.active.value.frame == before.active.value.frame + 1
            && |after.events| == |before.events| + 1 && before.events <= after.events
            && !Showable(after.active.value.observation))
  {
    RunKeeps(INITIAL, moves, s);
    MoveKeeps(s, TakeLock(t));
    var q := s.tasks[t].job.request;
    StepStandsRun(s.manager, q, Next(s, TakeLock(t)), t, inside, u);
    ReportsItself(u, last, t);
    if u.tasks[t].Answering? {
      var r :| StepTrial(s.manager, q, r).1.Ok? && u.manager == StepTrial(s.manager, q, r).0;
      Recorded(s.manager, q, r);
    } else {
      NotRecorded(s.manager, q, last.reaction);
    }
  }

  // Wherever the lock is free and a trial is running, a step whose observation cannot be
  // shown takes this course: failure is reported, and the frame has moved.
  lemma UnshowableStepIsRecorded(s: Service, t: nat, o: Observation, reward: real)
    requires t !in s.tasks && s.lock.None? && s.manager.active.Some? && !s.manager.active.value.done
    requires Valid(o) && !Showable(o)
    ensures var frame := s.manager.active.value.frame;
      var s1 := Next(s, Arrive(t, Step(Request(frame, true, true))));
      && Enabled(s1, TakeLock(t))
      && var s2 := Next(s1, TakeLock(t));
      && Enabled(s2, RunStep(t, Reacted(o, reward, false, false, false)))
      && var s3 := Next(s2, RunStep(t, Reacted(o, reward, false, false, false)));
      && Enabled(s3, Answer(t)) && Report(s3, Answer(t)) == Some((t, false))
      && var after := Next(s3, Answer(t)).manager;
      && after.active.Some? && after.active.value.frame == frame + 1
      && after.events == s.manager.events + [ActionTaken(frame + 1, false, reward, frame)]
  {
  }

  // Only the handler itself ends with a report.
  lemma ReportsItself(u: Service, last: Move, t: nat)
    requires Enabled(u, last) && Report(u, last) == Some((t, false)) && t in u.tasks
    requires u.tasks[t].Stepping? || u.tasks[t].Answering?
    ensures u.tasks[t].Stepping? ==> last.RunStep? && last.task == t
                                     && StepTrial(u.manager, u.tasks[t].request, last.reaction).1.Err?
                                     && Next(u, last).manager == StepTrial(u.manager, u.tasks[t].request, last.reaction).0
    ensures u.tasks[t].Answering? ==> last == Answer(t) && Next(u, last).manager == u.manager
  {
  }

  lemma Recorded(m: Manager, q: Request, r: Reaction)
    requires StepTrial(m, q, r).1.Ok?
    ensures var after := StepTrial(m, q, r).0;
      && Admitted(m, q) && after.active.Some? && after.active.value.frame == m.active.value.frame + 1
      && |after.events| == |m.events| + 1 && m.events <= after.events
  {
  }

  lemma NotRecorded(m: Manager, q: Request, r: Reaction)
    requires StepTrial(m, q, r).1.Err?
    ensures NothingRecorded(m, StepTrial(m, q, r).0)
  {
  }

  // ---------------------------------------------------------------- the frame counter

  // A handler's environment step that the frame counter misses.
  predicate Misses(s: Service, m: Move)
    requires Enabled(s, m)
  {
    m.RunStep? && Admitted(s.manager, s.tasks[m.task].request) && Fruitless(m.reaction)
  }

  predicate Begins(s: Service, m: Move)
    requires Enabled(s, m)
  {
    m.Build? && BeginTrial(s.manager, s.tasks[m.task].id, m.allowed, m.reset).1.Ok?
  }

  // The missed steps since the last trial began, when `n` were missed before this run.
  function Missed(s: Service, moves: seq<Move>, n: nat): nat
    decreases |moves|
  {
    if moves == [] || !Enabled(s, moves[0]) then n
    else Missed(Next(s, moves[0]), moves[1..],
                if Begins(s, moves[0]) then 0 else if Misses(s, moves[0]) then n + 1 else n)
  }

  lemma {:induction false} BehindByMissed(s: Service, moves: seq<Move>, t: Service, n: nat)
    requires Run(s, moves, t) && (s.manager.active.Some? ==> Behind(s.manager) == n)
    ensures t.manager.active.Some? ==> Behind(t.manager) == Missed(s, moves, n)
    decreases |moves|
  {
    if moves != [] {
      var m := moves[0];
      if m.RunStep? && s.manager.active.Some? { FallsBehindIff(s.manager, s.tasks[m.task].request, m.reaction); }
      BehindByMissed(Next(s, m), moves[1..], t, if Begins(s, m) then 0 else if Misses(s, m) then n + 1 else n);
    }
  }

  // In every run, the frame counter of the active trial is behind the environment by the
  // admitted requests since its begin whose step raised or gave an observation that was
  // refused; it agrees with the environment exactly when there was none.
  lemma FrameAgreesIff(moves: seq<Move>, s: Service)
    requires Run(INITIAL, moves, s) && s.manager.active.Some?
    ensures Behind(s.manager) == Missed(INITIAL, moves, 0)
    ensures s.manager.active.value.frame == s.manager.active.value.envSteps <==> Missed(INITIAL, moves, 0) == 0
  {
    BehindByMissed(INITIAL, moves, s, 0);
  }

  // ---------------------------------------------------------------- what is let through, and what it shows

  // A request is answered with a new frame exactly when a trial is running and waits for
  // it, action and bounds are right, and the environment gives a state and three pictures.
  // Every refusal tells the first thing that was wrong.
  lemma StepAnswersIff(m: Manager, q: Request, r: Reaction)
    ensures var answer := StepTrial(m, q, r).1;
      var running := m.active.Some? && !m.active.value.done;
      var due := running && q.expected == m.active.value.frame;
      && (answer.Ok? <==> due && q.shapeOk && q.inSpace
                          && r.Reacted? && r.observation.stateOk && |r.observation.pixels| == 3)
      && (answer == Err(TrialUnavailable) <==> m.active.None?)
      && (answer == Err(EpisodeDone) <==> m.active.Some? && m.active.value.done)
      && (answer == Err(StaleAction) <==> running && !due)
      && (answer == Err(ActionSchema) <==> due && !q.shapeOk)
      && (answer == Err(ActionOutOfBounds) <==> due && q.shapeOk && !q.inSpace)
      && (answer == Err(EnvironmentRaised) <==> due && q.shapeOk && q.inSpace && r.Raised?)
  {
  }

  // A trial begins exactly when none is active, the task is allowed and the environment
  // is made with a state and three pictures; it begins at frame 0 with nothing done, and
  // its beginning is all that the ledger holds.
  lemma BeginAnswersIff(m: Manager, id: string, allowed: bool, reset: Reset)
    ensures var (after, answer) := BeginTrial(m, id, allowed, reset);
      && (answer.Ok? <==> m.active.None? && allowed && reset.ok
                          && reset.observation.stateOk && |reset.observation.pixels| == 3)
      && (answer.Err? ==> after == m)
      && (answer.Ok? ==> after == Manager(Some(answer.value), [TrialBegin(id)])
                         && answer.value.id == id && answer.value.observation == reset.observation
                         && answer.value.envSteps == 0 && Shows(answer.value, None))
  {
  }

  // The caller is told of success exactly when each of the three cameras that is in the
  // observation has a usable picture.
  lemma AnswerIff(s: Service, t: nat)
    requires Enabled(s, Answer(t)) && s.manager.active.Some?
    ensures var pixels := s.manager.active.value.observation.pixels;
      var cameras := {"robot0_agentview_left", "robot0_agentview_right", "robot0_eye_in_hand"};
      Report(s, Answer(t)) == Some((t, true)) <==> forall c :: c in pixels && c in cameras ==> pixels[c]
    ensures Report(s, Answer(t)) == Some((t, true)) || Report(s, Answer(t)) == Some((t, false))
  {
  }

  // The trial is as the reaction left it, or as it began where there was none.
  predicate Shows(t: Trial, last: Option<Reaction>) {
    match last
    case None => t.frame == 0 && !t.done && !t.success && t.reward == 0.0
    case Some(r) =>
      && r.Reacted? && t.frame > 0 && t.observation == r.observation
      && (t.done <==> r.terminated || r.truncated)
      && t.success == r.success && t.reward == r.reward
  }

  // The step takes the environment's reaction.
  predicate Takes(s: Service, m: Move)
    requires Enabled(s, m)
  {
    m.RunStep? && Admitted(s.manager, s.tasks[m.task].request) && !Fruitless(m.reaction)
  }

  // The last reaction taken since the last trial began, when `last` was it before this run.
  function LastTaken(s: Service, moves: seq<Move>, last: Option<Reaction>): Option<Reaction>
    decreases |moves|
  {
    if moves == [] || !Enabled(s, moves[0]) then last
    else LastTaken(Next(s, moves[0]), moves[1..],
                   if Begins(s, moves[0]) then None
                   else if Takes(s, moves[0]) then Some(moves[0].reaction) else last)
  }

  // The manager's active trial shows the last reaction, which its ledger records.
  predicate Recalls(m: Manager, last: Option<Reaction>) {
    m.active.Some? ==>
      && Shows(m.active.value, last)
      && (last.Some? ==> m.events != [] && m.events[|m.events| - 1].ActionTaken?
                         && m.events[|m.events| - 1].reward == last.value.reward)
  }

  lemma StepRecalls(m: Manager, q: Request, r: Reaction, last: Option<Reaction>)
    requires Recalls(m, last)
    ensures Recalls(StepTrial(m, q, r).0, if Admitted(m, q) && !Fruitless(r) then Some(r) else last)
  {
  }

  lemma MoveRecalls(s: Service, m: Move, last: Option<Reaction>)
    requires Enabled(s, m) && Recalls(s.manager, last)
    ensures Recalls(Next(s, m).manager,
                    if Begins(s, m) then None else if Takes(s, m) then Some(m.reaction) else last)
  {
    if m.RunStep? { StepRecalls(s.manager, s.tasks[m.task].request, m.reaction, last); }
  }

  lemma {:induction false} RunRecalls(s: Service, moves: seq<Move>, t: Service, last: Option<Reaction>)
    requires Run(s, moves, t) && Recalls(s.manager, last)
    ensures Recalls(t.manager, LastTaken(s, moves, last))
    decreases |moves|
  {
    if moves != [] {
      var m := moves[0];
      MoveRecalls(s, m, last);
      RunRecalls(Next(s, m), moves[1..], t, if Begins(s, m) then None else if Takes(s, m) then Some(m.reaction) else last);
    }
  }

  // In every run the active trial shows the last reaction taken since it began: its
  // observation, reward and success, and it is done exactly when that reaction terminated
  // or truncated the episode.  The ledger ends with that reward.
  lemma ShowsLastReaction(moves: seq<Move>, s: Service)
    requires Run(INITIAL, moves, s) && s.manager.active.Some?
    ensures Recalls(s.manager, LastTaken(INITIAL, moves, None))
  {
    RunRecalls(INITIAL, moves, s, None);
  }

  // ---------------------------------------------------------------- the course of a request

  // What becomes of a request when it gets the service lock: a begin is refused exactly
  // where a trial is active or the backend is taken, an end is answered at once exactly
  // where no trial is active, and anything else goes on inside.
  lemma TakenUp(s: Service, t: nat)
    requires Enabled(s, TakeLock(t))
    ensures var after, job := Next(s, TakeLock(t)), s.tasks[t].job;
      var refused := job.Begin? && (s.manager.active.Some? || s.resource != Free);
      var idle := job.End? && s.manager.active.None?;
      && after.manager == s.manager && after.resource == s.resource && after.owns == s.owns
      && (refused || idle ==> after.lock.None? && after.tasks == s.tasks - {t} && Report(s, TakeLock(t)) == Some((t, idle)))
      && (!refused && !idle ==> after.lock == Some(t) && Report(s, TakeLock(t)) == None)
  {
  }

  // In every run a begin that only has its response left was prepared without failure.
  lemma {:induction false} AnsweringWasPrepared(s: Service, moves: seq<Move>, u: Service, t: nat)
    requires Run(s, moves, u) && t in u.tasks && u.tasks[t] == Answering(true)
    requires t !in s.tasks || s.tasks[t] != Answering(true)
    ensures Prepare(t, true) in moves
    decreases |moves|
  {
    var next := Next(s, moves[0]);
    if t in next.tasks && next.tasks[t] == Answering(true) {
      PreparedBy(s, moves[0], t);
    } else {
      AnsweringWasPrepared(next, moves[1..], u, t);
    }
  }

  lemma PreparedBy(s: Service, m: Move, t: nat)
    requires Enabled(s, m) && (t !in s.tasks || s.tasks[t] != Answering(true))
    requires t in Next(s, m).tasks && Next(s, m).tasks[t] == Answering(true)
    ensures m == Prepare(t, true)
  {
  }

  // Wherever the lock is free and a trial is running it can be ended: success is reported,
  // and neither trial nor backend is left.
  lemma TrialCanEnd(moves: seq<Move>, s: Service, t: nat)
    requires Run(INITIAL, moves, s) && t !in s.tasks && s.lock.None? && s.manager.active.Some?
    ensures var s1 := Next(s, Arrive(t, End));
      && Enabled(s1, TakeLock(t))
      && var s2 := Next(s1, TakeLock(t));
      && Enabled(s2, RunEnd(t))
      && var s3 := Next(s2, RunEnd(t));
      && Enabled(s3, Release(t)) && Report(s3, Release(t)) == Some((t, true))
      && var after := Next(s3, Release(t));
      && after.manager == Manager(None, s.manager.events + [TrialEnd(s.manager.active.value.id)])
      && after.resource == Free && after.lock.None? && after.tasks == s.tasks
  {
    RunKeeps(INITIAL, moves, s);
  }
}
