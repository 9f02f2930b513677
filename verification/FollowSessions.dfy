/**
 The session protocol between a follow client and the follow service.  Each class
 updates its own table; the system below runs them against messages in flight, one
 atomic handler at a time.
 */
module FollowSessions {
  import opened Wrappers

  datatype Command = Start(sid: string, robot: string) | Stop(sid: string)

  datatype Kind = Progress | Busy | Final

  datatype Status = Status(sid: string, kind: Kind)

  // A finished session has published its result but is still in the table.
  datatype Session = Session(robot: string, running: bool, stop: bool, sequence: nat)

  datatype Future = Waiting | Resolved | Cancelled

  // ---------------------------------------------------------------- the service

  ghost predicate RobotBusy(sessions: map<string, Session>, robot: string) {
    exists sid :: sid in sessions && sessions[sid].robot == robot
  }

  // What one command does to the session table, and the status it answers at once.
  ghost function Handle(robots: set<string>, sessions: map<string, Session>, c: Command)
    : (map<string, Session>, Option<Status>)
  {
    match c
    case Stop(sid) => (if sid in sessions then sessions[sid := sessions[sid].(stop := true)] else sessions, None)
    case Start(sid, robot) =>
      if sid == "" || robot !in robots then (sessions, None)
      else if RobotBusy(sessions, robot) then (sessions, Some(Status(sid, Busy)))
      else (sessions[sid := Session(robot, true, false, 0)], None)
  }

  // The table after one more velocity command, after the result was published, and after
  // the session was taken out.
  function Counted(sessions: map<string, Session>, sid: string): map<string, Session>
    requires sid in sessions
  {
    sessions[sid := sessions[sid].(sequence := sessions[sid].sequence + 1)]
  }

  function Finished(sessions: map<string, Session>, sid: string): map<string, Session>
    requires sid in sessions
  {
    sessions[sid := sessions[sid].(running := false)]
  }

  function Forgotten(sessions: map<string, Session>, sid: string): map<string, Session> { sessions - {sid} }

  class HumanFollowService {
    const robots: set<string>
    var sessions: map<string, Session>

    constructor (robots: set<string>)
      ensures this.robots == robots && sessions == map[]
    {
      this.robots, sessions := robots, map[];
    }

    // The first session of the robot, if there is one.
    method ActiveSession(robot: string) returns (active: Option<string>)
      ensures active.Some? <==> RobotBusy(sessions, robot)
      ensures active.Some? ==> active.value in sessions && sessions[active.value].robot == robot
    {
      var left := sessions.Keys;
      while left != {}
        invariant left <= sessions.Keys
        invariant forall sid :: sid in sessions && sid !in left ==> sessions[sid].robot != robot
        decreases left
      {
        var sid :| sid in left;
        if sessions[sid].robot == robot { return Some(sid); }
        left := left - {sid};
      }
      return None;
    }

    method OnCommand(c: Command) returns (answer: Option<Status>)
      modifies this
      ensures (sessions, answer) == Handle(robots, old(sessions), c)
    {
      match c {
        case Stop(sid) =>
          if sid in sessions { sessions := sessions[sid := sessions[sid].(stop := true)]; }
          return None;
        case Start(sid, robot) =>
          if sid == "" || robot !in robots { return None; }
          var active := ActiveSession(robot);
          if active.Some? { return Some(Status(sid, Busy)); }
          sessions := sessions[sid := Session(robot, true, false, 0)];
          return None;
      }
    }

    // One velocity command of a running session; numbers count up from one.
    method ApplyVelocity(sid: string) returns (sequence: nat)
      requires sid in sessions
      modifies this
      ensures sessions == Counted(old(sessions), sid) && sequence == sessions[sid].sequence
    {
      sequence := sessions[sid].sequence + 1;
      sessions := sessions[sid := sessions[sid].(sequence := sequence)];
    }

    method Finish(sid: string) returns (result: Status)
      requires sid in sessions
      modifies this
      ensures result == Status(sid, Final) && sessions == Finished(old(sessions), sid)
    {
      sessions := sessions[sid := sessions[sid].(running := false)];
      return Status(sid, Final);
    }

    method Forget(sid: string)
      modifies this
      ensures sessions == Forgotten(old(sessions), sid)
    {
      sessions := sessions - {sid};
    }
  }

  // ---------------------------------------------------------------- the client

  function Receive(pending: map<string, Future>, s: Status): map<string, Future> {
    if s.sid in pending && s.kind != Progress && pending[s.sid].Waiting? then pending[s.sid := Resolved] else pending
  }

  function Opened(pending: map<string, Future>, sid: string): map<string, Future> { pending[sid := Waiting] }

  // Cancelling the caller cancels a future that nothing has resolved.
  function CalledOff(pending: map<string, Future>, sid: string): map<string, Future>
    requires sid in pending
  {
    if pending[sid].Waiting? then pending[sid := Cancelled] else pending
  }

  function Closed(pending: map<string, Future>, sid: string): map<string, Future> { pending - {sid} }

  class HumanFollowServiceClient {
    var pending: map<string, Future>

    constructor () ensures pending == map[] { pending := map[]; }

    method Begin(sid: string, robot: string) returns (c: Command)
      modifies this
      ensures pending == Opened(old(pending), sid) && c == Start(sid, robot)
    {
      pending := pending[sid := Waiting];
      return Start(sid, robot);
    }

    // A cancelled caller asks the service to stop.
    method Cancel(sid: string) returns (c: Command)
      requires sid in pending
      modifies this
      ensures pending == CalledOff(old(pending), sid) && c == Stop(sid)
    {
      if pending[sid].Waiting? { pending := pending[sid := Cancelled]; }
      return Stop(sid);
    }

    method OnStatus(s: Status)
      modifies this
      ensures pending == Receive(old(pending), s)
    {
      if s.sid !in pending { return; }
      if s.kind == Progress { return; }
      if pending[s.sid].Waiting? { pending := pending[s.sid := Resolved]; }
    }

    method Return(sid: string)
      modifies this
      ensures pending == Closed(old(pending), sid)
    {
      pending := pending - {sid};
    }
  }

  // ---------------------------------------------------------------- the system

  // `issued` remembers every session id ever started and its robot; the last four
  // fields are histories: results published, results delivered, futures resolved, and
  // velocity numbers sent, by session.
  datatype System = System(
    robots: set<string>, sessions: map<string, Session>, pending: map<string, Future>,
    commands: multiset<Command>, statuses: multiset<Status>,
    issued: map<string, string>, published: multiset<string>, delivered: multiset<string>,
    resolved: multiset<string>, velocities: seq<(string, nat)>)

  datatype Step =
    | ClientStart(sid: string, robot: string)
    | ClientCancel(sid: string)
    | ClientReturn(sid: string)
    | DeliverCommand(command: Command)
    | DeliverStatus(status: Status)
    | SendVelocity(sid: string)
    | SendProgress(sid: string)
    | FinishSession(sid: string)
    | ForgetSession(sid: string)
    | StopService

  // Session ids are fresh, and every message in flight is delivered at most once.
  predicate Enabled(s: System, step: Step) {
    match step
    case ClientStart(sid, robot) => sid != "" && sid !in s.issued
    case ClientCancel(sid) => sid in s.pending
    case ClientReturn(sid) => sid in s.pending && !s.pending[sid].Waiting?
    case DeliverCommand(c) => c in s.commands
    case DeliverStatus(st) => st in s.statuses
    case SendVelocity(sid) => sid in s.sessions && s.sessions[sid].running
    case SendProgress(sid) => sid in s.sessions && s.sessions[sid].running
    case FinishSession(sid) => sid in s.sessions && s.sessions[sid].running
    case ForgetSession(sid) => sid in s.sessions && !s.sessions[sid].running
    case StopService => true
  }

  ghost function Next(s: System, step: Step): System
    requires Enabled(s, step)
  {
    match step
    case ClientStart(sid, robot) =>
      s.(pending := Opened(s.pending, sid), issued := s.issued[sid := robot],
         commands := s.commands + multiset{Start(sid, robot)})
    case ClientCancel(sid) =>
      s.(pending := CalledOff(s.pending, sid), commands := s.commands + multiset{Stop(sid)})
    case ClientReturn(sid) => s.(pending := Closed(s.pending, sid))
    case DeliverCommand(c) =>
      var (sessions, answer) := Handle(s.robots, s.sessions, c);
      s.(commands := s.commands - multiset{c}, sessions := sessions,
         statuses := if answer.Some? then s.statuses + multiset{answer.value} else s.statuses,
         published := if answer.Some? then s.published + multiset{c.sid} else s.published)
    case DeliverStatus(st) =>
      s.(statuses := s.statuses - multiset{st}, pending := Receive(s.pending, st),
         delivered := if st.kind == Progress then s.delivered else s.delivered + multiset{st.sid},
         resolved := if Receive(s.pending, st) != s.pending then s.resolved + multiset{st.sid} else s.resolved)
    case SendVelocity(sid) =>
      var sessions := Counted(s.sessions, sid);
      s.(sessions := sessions, velocities := s.velocities + [(sid, sessions[sid].sequence)])
    case SendProgress(sid) => s.(statuses := s.statuses + multiset{Status(sid, Progress)})
    case FinishSession(sid) =>
      s.(sessions := Finished(s.sessions, sid),
         statuses := s.statuses + multiset{Status(sid, Final)}, published := s.published + multiset{sid})
    case ForgetSession(sid) => s.(sessions := Forgotten(s.sessions, sid))
    case StopService => s.(sessions := map sid | sid in s.sessions :: s.sessions[sid].(stop := true))
  }

  ghost predicate Run(s: System, steps: seq<Step>, t: System)
    decreases |steps|
  {
    if steps == [] then s == t else Enabled(s, steps[0]) && Run(Next(s, steps[0]), steps[1..], t)
  }

  function Initial(robots: set<string>): System {
    System(robots, map[], map[], multiset{}, multiset{}, map[], multiset{}, multiset{}, multiset{}, [])
  }

  // ---------------------------------------------------------------- invariants

  function Starts(s: System, sid: string): nat {
    if sid in s.issued then s.commands[Start(sid, s.issued[sid])] else 0
  }

  function Live(s: System, sid: string): nat { if sid in s.sessions && s.sessions[sid].running then 1 else 0 }

  function Results(s: System, sid: string): nat { s.statuses[Status(sid, Busy)] + s.statuses[Status(sid, Final)] }

  predicate Known(s: System, sid: string) { sid in s.issued && s.issued[sid] in s.robots }

  // The velocity numbers sent for one session.
  function NumbersOf(vs: seq<(string, nat)>, sid: string): seq<nat> {
    if vs == [] then []
    else NumbersOf(vs[..|vs| - 1], sid) + if vs[|vs| - 1].0 == sid then [vs[|vs| - 1].1] else []
  }

  predicate CountsUp(ns: seq<nat>) { forall i :: 0 <= i < |ns| ==> ns[i] == i + 1 }

  // Every session in the table was started by a client, and every start in flight is the client's own.
  ghost predicate Origins(s: System) {
    && (forall sid :: sid in s.sessions ==> Known(s, sid) && s.issued[sid] == s.sessions[sid].robot)
    && (forall c :: c in s.commands && c.Start? ==> c.sid in s.issued && s.issued[c.sid] == c.robot)
    && (forall sid :: sid in s.pending ==> sid in s.issued)
    && "" !in s.issued
  }

  // At most one session per robot.
  ghost predicate Exclusive(s: System) {
    forall a, b :: a in s.sessions && b in s.sessions && s.sessions[a].robot == s.sessions[b].robot ==> a == b
  }

  // A start of a known robot is in flight, or its session runs, or its one result is out.
  ghost predicate Account(s: System, sid: string) {
    && (sid in s.sessions ==> Starts(s, sid) == 0)
    && (if Known(s, sid) then Starts(s, sid) + Live(s, sid) + s.published[sid] == 1
        else Starts(s, sid) <= 1 && s.published[sid] == 0)
  }

  // Published results are in flight or delivered; only a delivered one resolves a
  // future, and a delivered one leaves no future waiting.
  ghost predicate Delivery(s: System, sid: string) {
    && Results(s, sid) + s.delivered[sid] == s.published[sid]
    && s.resolved[sid] <= s.delivered[sid]
    && (sid in s.pending && s.pending[sid].Waiting? ==> s.delivered[sid] == 0)
    && (sid in s.pending && s.pending[sid].Resolved? ==> s.resolved[sid] == 1)
  }

  // Velocity numbers count 1, 2, 3, ... in every session.
  ghost predicate Numbering(s: System, sid: string) {
    var ns := NumbersOf(s.velocities, sid);
    && CountsUp(ns)
    && (sid in s.sessions ==> |ns| == s.sessions[sid].sequence)
    && (sid !in s.issued || Starts(s, sid) > 0 ==> ns == [])
  }

  ghost predicate Inv(s: System) {
    && Origins(s) && Exclusive(s)
    && forall sid: string :: Account(s, sid) && Delivery(s, sid) && Numbering(s, sid)
  }

  // ---------------------------------------------------------------- preservation

  lemma StartIssued(s: System, sid: string, robot: string)
    requires Origins(s) && (sid !in s.issued || s.issued[sid] != robot)
    ensures s.commands[Start(sid, robot)] == 0
  {
    assert Start(sid, robot).Start?;
  }

  lemma ClientStartKeeps(s: System, sid: string, robot: string)
    requires Inv(s) && Enabled(s, ClientStart(sid, robot))
    ensures Inv(Next(s, ClientStart(sid, robot)))
  {
    var t := Next(s, ClientStart(sid, robot));
    StartIssued(s, sid, robot);
    forall x: string ensures Account(t, x) && Delivery(t, x) && Numbering(t, x) {
      assert Account(s, x) && Delivery(s, x) && Numbering(s, x);
    }
  }

  lemma ClientCancelKeeps(s: System, sid: string)
    requires Inv(s) && Enabled(s, ClientCancel(sid))
    ensures Inv(Next(s, ClientCancel(sid)))
  {
    var t := Next(s, ClientCancel(sid));
    forall x: string ensures Account(t, x) && Delivery(t, x) && Numbering(t, x) {
      assert Account(s, x) && Delivery(s, x) && Numbering(s, x);
    }
  }

  // Steps that touch neither commands, results nor velocities.
  lemma QuietKeeps(s: System, step: Step)
    requires Inv(s) && Enabled(s, step) && (step.ClientReturn? || step.SendProgress? || step.StopService? || step.ForgetSession?)
    ensures Inv(Next(s, step))
  {
    var t := Next(s, step);
    QuietKeepsTable(s, step);
    forall x: string ensures Account(t, x) && Delivery(t, x) && Numbering(t, x) {
      assert Account(s, x) && Delivery(s, x) && Numbering(s, x);
    }
  }

  lemma QuietKeepsTable(s: System, step: Step)
    requires Origins(s) && Exclusive(s) && Enabled(s, step)
    requires step.ClientReturn? || step.SendProgress? || step.StopService? || step.ForgetSession?
    ensures Origins(Next(s, step)) && Exclusive(Next(s, step))
  {
  }

  lemma StopCommandKeeps(s: System, sid: string)
    requires Inv(s) && Enabled(s, DeliverCommand(Stop(sid)))
    ensures Inv(Next(s, DeliverCommand(Stop(sid))))
  {
    var t := Next(s, DeliverCommand(Stop(sid)));
    StopCommandKeepsTable(s, sid);
    forall x: string ensures Account(t, x) && Delivery(t, x) && Numbering(t, x) {
      assert Account(s, x) && Delivery(s, x) && Numbering(s, x);
      StopCommandKeepsAccount(s, sid, x);
    }
  }

  lemma StopCommandKeepsTable(s: System, sid: string)
    requires Origins(s) && Exclusive(s) && Enabled(s, DeliverCommand(Stop(sid)))
    ensures Origins(Next(s, DeliverCommand(Stop(sid)))) && Exclusive(Next(s, DeliverCommand(Stop(sid))))
  {
  }

  lemma StopCommandKeepsAccount(s: System, sid: string, x: string)
    requires Account(s, x) && Delivery(s, x) && Enabled(s, DeliverCommand(Stop(sid)))
    ensures Account(Next(s, DeliverCommand(Stop(sid))), x) && Delivery(Next(s, DeliverCommand(Stop(sid))), x)
  {
  }

  // A start that is answered at once or dropped leaves the table alone.
  lemma RefusedStartKeeps(s: System, sid: string, robot: string)
    requires Inv(s) && Enabled(s, DeliverCommand(Start(sid, robot)))
    requires sid == "" || robot !in s.robots || RobotBusy(s.sessions, robot)
    ensures Inv(Next(s, DeliverCommand(Start(sid, robot))))
  {
    var t := Next(s, DeliverCommand(Start(sid, robot)));
    assert s.issued[sid] == robot && Account(s, sid) && Starts(s, sid) == 1;
    forall x: string ensures Account(t, x) && Delivery(t, x) && Numbering(t, x) {
      assert Account(s, x) && Delivery(s, x) && Numbering(s, x);
    }
  }

  lemma AcceptedStartKeeps(s: System, sid: string, robot: string)
    requires Inv(s) && Enabled(s, DeliverCommand(Start(sid, robot)))
    requires sid != "" && robot in s.robots && !RobotBusy(s.sessions, robot)
    ensures Inv(Next(s, DeliverCommand(Start(sid, robot))))
  {
    var t := Next(s, DeliverCommand(Start(sid, robot)));
    assert t.sessions == s.sessions[sid := Session(robot, true, false, 0)];
    assert s.issued[sid] == robot && Account(s, sid) && Numbering(s, sid) && Starts(s, sid) == 1;
    forall x: string ensures Account(t, x) && Delivery(t, x) && Numbering(t, x) {
      assert Account(s, x) && Delivery(s, x) && Numbering(s, x);
    }
  }

  lemma StatusKeeps(s: System, st: Status)
    requires Inv(s) && Enabled(s, DeliverStatus(st))
    ensures Inv(Next(s, DeliverStatus(st)))
  {
    var t := Next(s, DeliverStatus(st));
    StatusKeepsTable(s, st);
    forall x: string ensures Account(t, x) && Delivery(t, x) && Numbering(t, x) {
      assert Account(s, x) && Delivery(s, x) && Numbering(s, x);
      StatusKeepsAccount(s, st, x);
    }
  }

  lemma StatusKeepsTable(s: System, st: Status)
    requires Origins(s) && Exclusive(s) && Enabled(s, DeliverStatus(st))
    ensures Origins(Next(s, DeliverStatus(st))) && Exclusive(Next(s, DeliverStatus(st)))
  {
  }

  lemma StatusKeepsAccount(s: System, st: Status, x: string)
    requires Account(s, x) && Delivery(s, x) && Enabled(s, DeliverStatus(st))
    ensures Account(Next(s, DeliverStatus(st)), x) && Delivery(Next(s, DeliverStatus(st)), x)
  {
    ReceiveChanges(s.pending, st);
    if x == st.sid { assert Results(Next(s, DeliverStatus(st)), x) <= Results(s, x); }
  }

  lemma ReceiveChanges(pending: map<string, Future>, st: Status)
    ensures Receive(pending, st) != pending <==> st.sid in pending && st.kind != Progress && pending[st.sid].Waiting?
  {
    assert st.sid in pending && pending[st.sid].Waiting? ==> pending[st.sid := Resolved][st.sid] != pending[st.sid];
  }

  lemma NumbersSnoc(vs: seq<(string, nat)>, sid: string, n: nat, x: string)
    ensures NumbersOf(vs + [(sid, n)], x) == if x == sid then NumbersOf(vs, x) + [n] else NumbersOf(vs, x)
  {
    assert (vs + [(sid, n)])[..|vs|] == vs;
    assert NumbersOf(vs, x) + [] == NumbersOf(vs, x);
  }

  lemma CountsUpSnoc(ns: seq<nat>)
    requires CountsUp(ns)
    ensures CountsUp(ns + [|ns| + 1])
  {
  }

  lemma VelocityKeepsNumbering(s: System, sid: string, x: string)
    requires Numbering(s, x) && Account(s, sid) && Enabled(s, SendVelocity(sid)) && Known(s, sid)
    ensures Numbering(Next(s, SendVelocity(sid)), x)
  {
    var n, t := s.sessions[sid].sequence + 1, Next(s, SendVelocity(sid));
    assert t.velocities == s.velocities + [(sid, n)];
    NumbersSnoc(s.velocities, sid, n, x);
    if x == sid {
      CountsUpSnoc(NumbersOf(s.velocities, sid));
      assert |NumbersOf(t.velocities, sid)| == n == t.sessions[sid].sequence && Starts(t, sid) == 0;
    } else {
      assert NumbersOf(t.velocities, x) == NumbersOf(s.velocities, x) && Starts(t, x) == Starts(s, x);
    }
  }

  lemma VelocityKeeps(s: System, sid: string)
    requires Inv(s) && Enabled(s, SendVelocity(sid))
    ensures Inv(Next(s, SendVelocity(sid)))
  {
    var t := Next(s, SendVelocity(sid));
    VelocityKeepsTable(s, sid);
    assert Account(s, sid);
    forall x: string ensures Account(t, x) && Delivery(t, x) && Numbering(t, x) {
      assert Account(s, x) && Delivery(s, x) && Numbering(s, x);
      VelocityKeepsAccount(s, sid, x);
      VelocityKeepsNumbering(s, sid, x);
    }
  }

  lemma VelocityKeepsTable(s: System, sid: string)
    requires Origins(s) && Exclusive(s) && Enabled(s, SendVelocity(sid))
    ensures Origins(Next(s, SendVelocity(sid))) && Exclusive(Next(s, SendVelocity(sid)))
  {
  }

  lemma VelocityKeepsAccount(s: System, sid: string, x: string)
    requires Account(s, x) && Delivery(s, x) && Enabled(s, SendVelocity(sid))
    ensures Account(Next(s, SendVelocity(sid)), x) && Delivery(Next(s, SendVelocity(sid)), x)
  {
  }

  lemma FinishKeeps(s: System, sid: string)
    requires Inv(s) && Enabled(s, FinishSession(sid))
    ensures Inv(Next(s, FinishSession(sid)))
  {
    var t := Next(s, FinishSession(sid));
    forall x: string ensures Account(t, x) && Delivery(t, x) && Numbering(t, x) {
      assert Account(s, x) && Delivery(s, x) && Numbering(s, x);
    }
  }

  lemma StepKeeps(s: System, step: Step)
    requires Inv(s) && Enabled(s, step)
    ensures Inv(Next(s, step))
  {
    match step {
      case ClientStart(sid, robot) => ClientStartKeeps(s, sid, robot);
      case ClientCancel(sid) => ClientCancelKeeps(s, sid);
      case DeliverCommand(c) =>
        if c.Stop? { StopCommandKeeps(s, c.sid); }
        else if c.sid == "" || c.robot !in s.robots || RobotBusy(s.sessions, c.robot) {
          RefusedStartKeeps(s, c.sid, c.robot);
        } else {
          AcceptedStartKeeps(s, c.sid, c.robot);
        }
      case DeliverStatus(st) => StatusKeeps(s, st);
      case SendVelocity(sid) => VelocityKeeps(s, sid);
      case FinishSession(sid) => FinishKeeps(s, sid);
      case _ => QuietKeeps(s, step);
    }
  }

  lemma {:induction false} RunKeeps(s: System, steps: seq<Step>, t: System)
    requires Inv(s) && Run(s, steps, t)
    ensures Inv(t) && t.robots == s.robots
    decreases |steps|
  {
    if steps != [] {
      StepKeeps(s, steps[0]);
      RunKeeps(Next(s, steps[0]), steps[1..], t);
    }
  }

  // ---------------------------------------------------------------- what every run guarantees

  // In every interleaving: one session per robot; no start ever has two results, and no
  // future is resolved twice; a start of a known robot has its result exactly when its
  // command is handled and its session is over; no client waits on after its result
  // was delivered; velocity numbers count up per session.
  lemma EveryRun(robots: set<string>, steps: seq<Step>, t: System, sid: string)
    requires Run(Initial(robots), steps, t)
    ensures forall a, b :: a in t.sessions && b in t.sessions && t.sessions[a].robot == t.sessions[b].robot ==> a == b
    ensures t.published[sid] <= 1 && t.resolved[sid] <= 1
    ensures Known(t, sid) ==> t.published[sid] == if Starts(t, sid) == 0 && Live(t, sid) == 0 then 1 else 0
    ensures sid in t.pending && t.pending[sid].Waiting? ==> t.delivered[sid] == 0
    ensures CountsUp(NumbersOf(t.velocities, sid))
  {
    InitialInv(robots);
    RunKeeps(Initial(robots), steps, t);
    assert Account(t, sid) && Delivery(t, sid) && Numbering(t, sid);
  }

  lemma InitialInv(robots: set<string>)
    ensures Inv(Initial(robots))
  {
  }

  // A start naming an unknown robot is never answered: its future can only be cancelled.
  lemma {:induction false} UnknownRobotNeverAnswered(robots: set<string>, steps: seq<Step>, t: System, sid: string)
    requires Run(Initial(robots), steps, t) && sid in t.issued && t.issued[sid] !in robots
    ensures t.published[sid] == 0 && t.resolved[sid] == 0
  {
    InitialInv(robots);
    RunKeeps(Initial(robots), steps, t);
    assert Account(t, sid) && Delivery(t, sid);
  }

  // ---------------------------------------------------------------- stopping

  // A stop for the session, or for all of them, is delivered.
  predicate AsksStop(step: Step, sid: string) { step == DeliverCommand(Stop(sid)) || step.StopService? }

  predicate StopAsked(steps: seq<Step>, from: nat, sid: string) {
    exists j :: from <= j < |steps| && AsksStop(steps[j], sid)
  }

  // The step delivers the start of the session.
  predicate IsStart(step: Step, sid: string) { step.DeliverCommand? && step.command.Start? && step.command.sid == sid }

  predicate StartsAt(steps: seq<Step>, k: nat, sid: string) { k < |steps| && IsStart(steps[k], sid) }

  // The session was started and no start of it is in flight any more.
  ghost predicate Used(s: System, sid: string) { sid in s.issued && Starts(s, sid) == 0 }

  lemma NoStartInFlight(s: System, sid: string, robot: string)
    requires Origins(s) && Used(s, sid)
    ensures s.commands[Start(sid, robot)] == 0
  {
    if s.issued[sid] != robot { StartIssued(s, sid, robot); }
  }

  lemma UsedStays(s: System, step: Step, sid: string)
    requires Origins(s) && Enabled(s, step) && Used(s, sid)
    ensures Used(Next(s, step), sid) && !IsStart(step, sid)
  {
    if step.DeliverCommand? && step.command.Start? { NoStartInFlight(s, sid, step.command.robot); }
  }

  // What a session that a step leaves in the table was before it.
  ghost predicate WasThere(before: map<string, Session>, after: map<string, Session>, sid: string, asked: bool) {
    sid in after ==>
      sid in before && after[sid].robot == before[sid].robot && (after[sid].stop <==> before[sid].stop || asked)
  }

  // A step that is no start of it never puts a session into the table; one that stays in
  // it keeps its robot, and its stop flag is set by a stop and cleared by nothing.
  lemma StopStep(s: System, step: Step, sid: string)
    requires Enabled(s, step) && !IsStart(step, sid)
    ensures WasThere(s.sessions, Next(s, step).sessions, sid, AsksStop(step, sid))
  {
    if step.DeliverCommand? {
      HandledSession(s.robots, s.sessions, step.command, sid);
    } else {
      QuietSession(s, step, sid);
    }
  }

  lemma QuietSession(s: System, step: Step, sid: string)
    requires Enabled(s, step) && !step.DeliverCommand?
    ensures WasThere(s.sessions, Next(s, step).sessions, sid, step.StopService?)
  {
  }

  lemma HandledSession(robots: set<string>, sessions: map<string, Session>, c: Command, sid: string)
    requires c.Start? ==> c.sid != sid
    ensures WasThere(sessions, Handle(robots, sessions, c).0, sid, c == Stop(sid))
  {
  }

  lemma StopAskedCons(steps: seq<Step>, from: nat, sid: string)
    requires steps != []
    ensures StopAsked(steps, from + 1, sid) <==> StopAsked(steps[1..], from, sid)
    ensures StopAsked(steps, 0, sid) <==> AsksStop(steps[0], sid) || StopAsked(steps[1..], 0, sid)
  {
    forall j | 0 <= j < |steps[1..]| && AsksStop(steps[1..][j], sid) ensures AsksStop(steps[j + 1], sid) {}
    forall j | 1 <= j < |steps| && AsksStop(steps[j], sid) ensures AsksStop(steps[1..][j - 1], sid) {}
  }

  lemma StartsAtCons(steps: seq<Step>, sid: string)
    requires steps != []
    ensures StartsAt(steps, 0, sid) <==> IsStart(steps[0], sid)
    ensures forall k: nat :: StartsAt(steps, k + 1, sid) <==> StartsAt(steps[1..], k, sid)
  {
  }

  // No further start of a session comes, and one in the table at the end of a run was in
  // it throughout.
  lemma {:induction false} StopOfRunning(s: System, steps: seq<Step>, t: System, sid: string)
    requires Inv(s) && Run(s, steps, t) && Used(s, sid)
    ensures forall k: nat :: !StartsAt(steps, k, sid)
    ensures sid in t.sessions ==>
      && sid in s.sessions && t.sessions[sid].robot == s.sessions[sid].robot
      && (t.sessions[sid].stop <==> s.sessions[sid].stop || StopAsked(steps, 0, sid))
    decreases |steps|
  {
    if steps != [] {
      StepKeeps(s, steps[0]);
      UsedStays(s, steps[0], sid);
      StopOfRunning(Next(s, steps[0]), steps[1..], t, sid);
      if sid in t.sessions { StopStep(s, steps[0], sid); }
      StopAskedCons(steps, 0, sid);
      NoneStarts(steps, sid);
    }
  }

  lemma NoneStarts(steps: seq<Step>, sid: string)
    requires steps != [] && !IsStart(steps[0], sid) && forall k: nat :: !StartsAt(steps[1..], k, sid)
    ensures forall k: nat :: !StartsAt(steps, k, sid)
  {
    StartsAtCons(steps, sid);
    forall k: nat ensures !StartsAt(steps, k, sid) {
      if k > 0 { assert !StartsAt(steps[1..], k - 1, sid); }
    }
  }

  // A delivered start is the last one of its session in flight.
  lemma StartUses(s: System, step: Step, sid: string)
    requires Inv(s) && Enabled(s, step) && IsStart(step, sid)
    ensures Used(Next(s, step), sid)
  {
    assert Account(s, sid);
    assert step.command in s.commands;
  }

  lemma NewIsClear(s: System, step: Step, sid: string)
    requires Enabled(s, step) && IsStart(step, sid) && sid !in s.sessions && sid in Next(s, step).sessions
    ensures Next(s, step).sessions[sid] == Session(step.command.robot, true, false, 0)
  {
  }

  // What the stop flag of a session says about the steps since its one start.
  ghost predicate StopTells(steps: seq<Step>, t: System, sid: string)
    requires sid in t.sessions
  {
    && (exists k: nat :: StartsAt(steps, k, sid) && steps[k].command.robot == t.sessions[sid].robot)
    && forall k: nat :: StartsAt(steps, k, sid) ==> (t.sessions[sid].stop <==> StopAsked(steps, k + 1, sid))
  }

  lemma StopTellsCons(steps: seq<Step>, t: System, sid: string)
    requires steps != [] && sid in t.sessions && !IsStart(steps[0], sid) && StopTells(steps[1..], t, sid)
    ensures StopTells(steps, t, sid)
  {
    StartsAtCons(steps, sid);
    var k: nat :| StartsAt(steps[1..], k, sid) && steps[1..][k].command.robot == t.sessions[sid].robot;
    assert StartsAt(steps, k + 1, sid) && steps[k + 1].command.robot == t.sessions[sid].robot;
    forall k: nat | StartsAt(steps, k, sid) ensures t.sessions[sid].stop <==> StopAsked(steps, k + 1, sid) {
      if k > 0 {
        assert StartsAt(steps[1..], k - 1, sid);
        StopAskedCons(steps, k, sid);
      }
    }
  }

  lemma StopTellsFirst(steps: seq<Step>, t: System, sid: string)
    requires steps != [] && sid in t.sessions && IsStart(steps[0], sid)
    requires steps[0].command.robot == t.sessions[sid].robot && forall k: nat :: !StartsAt(steps[1..], k, sid)
    requires t.sessions[sid].stop <==> StopAsked(steps[1..], 0, sid)
    ensures StopTells(steps, t, sid)
  {
    StartsAtCons(steps, sid);
    StopAskedCons(steps, 0, sid);
    assert StartsAt(steps, 0, sid);
    forall k: nat | k > 0 ensures !StartsAt(steps, k, sid) {
      assert !StartsAt(steps[1..], k - 1, sid);
    }
  }

  lemma {:induction false} StopSinceStart(s: System, steps: seq<Step>, t: System, sid: string)
    requires Inv(s) && Run(s, steps, t) && sid !in s.sessions && sid in t.sessions
    ensures StopTells(steps, t, sid)
    decreases |steps|
  {
    var u, rest := Next(s, steps[0]), steps[1..];
    StepKeeps(s, steps[0]);
    if IsStart(steps[0], sid) {
      StartUses(s, steps[0], sid);
      StopOfRunning(u, rest, t, sid);
      NewIsClear(s, steps[0], sid);
      StopTellsFirst(steps, t, sid);
    } else {
      if sid in u.sessions { StopStep(s, steps[0], sid); }
      StopSinceStart(u, rest, t, sid);
      StopTellsCons(steps, t, sid);
    }
  }

  // In every run a session in the table has its stop flag set exactly when a stop for it,
  // or for all sessions, was delivered after its start.  So the flag is clear when the
  // session is new and stays set until it is taken out.
  lemma StopIff(robots: set<string>, steps: seq<Step>, t: System, sid: string)
    requires Run(Initial(robots), steps, t) && sid in t.sessions
    ensures exists k: nat :: StartsAt(steps, k, sid) && steps[k].command.robot == t.sessions[sid].robot
    ensures forall k: nat :: StartsAt(steps, k, sid) ==> (t.sessions[sid].stop <==> StopAsked(steps, k + 1, sid))
  {
    InitialInv(robots);
    StopSinceStart(Initial(robots), steps, t, sid);
  }

  // A delivered start opens a session exactly when it names one, its robot is known and
  // no session has that robot; where one has it, it is answered as busy at once; any
  // other start is dropped.
  lemma StartOutcome(s: System, sid: string, robot: string)
    requires Enabled(s, DeliverCommand(Start(sid, robot)))
    ensures var t := Next(s, DeliverCommand(Start(sid, robot)));
      var taken := exists x :: x in s.sessions && s.sessions[x].robot == robot;
      if sid == "" || robot !in s.robots then t.sessions == s.sessions && t.statuses == s.statuses
      else if taken then t.sessions == s.sessions && t.statuses == s.statuses + multiset{Status(sid, Busy)}
      else t.sessions == s.sessions[sid := Session(robot, true, false, 0)] && t.statuses == s.statuses
  {
    HandledStart(s.robots, s.sessions, sid, robot);
  }

  lemma HandledStart(robots: set<string>, sessions: map<string, Session>, sid: string, robot: string)
    ensures var taken := exists x :: x in sessions && sessions[x].robot == robot;
      Handle(robots, sessions, Start(sid, robot)) ==
        if sid == "" || robot !in robots then (sessions, None)
        else if taken then (sessions, Some(Status(sid, Busy)))
        else (sessions[sid := Session(robot, true, false, 0)], None)
  {
  }

  // ---------------------------------------------------------------- cancelling and answering

  // How often a caller of the session was cancelled, and how often a stop for it arrived.
  function Cancels(steps: seq<Step>, sid: string): nat {
    if steps == [] then 0 else (if steps[0] == ClientCancel(sid) then 1 else 0) + Cancels(steps[1..], sid)
  }

  function StopsDelivered(steps: seq<Step>, sid: string): nat {
    if steps == [] then 0
    else (if steps[0] == DeliverCommand(Stop(sid)) then 1 else 0) + StopsDelivered(steps[1..], sid)
  }

  lemma StopsInFlight(s: System, step: Step, sid: string)
    requires Enabled(s, step)
    ensures Next(s, step).commands[Stop(sid)] + (if step == DeliverCommand(Stop(sid)) then 1 else 0)
         == s.commands[Stop(sid)] + (if step == ClientCancel(sid) then 1 else 0)
  {
    match step {
      case DeliverCommand(c) => assert c == Stop(sid) || (s.commands - multiset{c})[Stop(sid)] == s.commands[Stop(sid)];
      case ClientStart(x, robot) => assert Start(x, robot) != Stop(sid);
      case ClientCancel(x) => assert x == sid || Stop(x) != Stop(sid);
      case _ =>
    }
  }

  lemma {:induction false} StopsConserved(s: System, steps: seq<Step>, t: System, sid: string)
    requires Run(s, steps, t)
    ensures t.commands[Stop(sid)] + StopsDelivered(steps, sid) == s.commands[Stop(sid)] + Cancels(steps, sid)
    decreases |steps|
  {
    if steps != [] {
      StopsInFlight(s, steps[0], sid);
      StopsConserved(Next(s, steps[0]), steps[1..], t, sid);
    }
  }

  // In every run each cancelled caller has sent one stop for its session, which is in
  // flight or delivered; nothing else sends one.
  lemma EveryCancelStops(robots: set<string>, steps: seq<Step>, t: System, sid: string)
    requires Run(Initial(robots), steps, t)
    ensures t.commands[Stop(sid)] + StopsDelivered(steps, sid) == Cancels(steps, sid)
  {
    StopsConserved(Initial(robots), steps, t, sid);
  }

  // What a future becomes by one step: a waiting one is cancelled by its caller or
  // resolved by a result, and what is settled stays.
  lemma FutureStep(s: System, step: Step, sid: string)
    requires Enabled(s, step) && sid in s.pending && sid in Next(s, step).pending && !step.ClientStart?
    ensures Next(s, step).pending[sid] ==
      if !s.pending[sid].Waiting? then s.pending[sid]
      else if step == ClientCancel(sid) then Cancelled
      else if step == DeliverStatus(Status(sid, Busy)) || step == DeliverStatus(Status(sid, Final)) then Resolved
      else Waiting
  {
    match step {
      case DeliverStatus(st) => FutureReceives(s.pending, st, sid);
      case ClientCancel(x) => FutureCalledOff(s.pending, x, sid);
      case ClientStart(_, _) =>
      case _ => assert Next(s, step).pending[sid] == s.pending[sid];
    }
  }

  lemma FutureReceives(pending: map<string, Future>, st: Status, sid: string)
    requires sid in pending
    ensures sid in Receive(pending, st)
    ensures Receive(pending, st)[sid] ==
      if pending[sid].Waiting? && (st == Status(sid, Busy) || st == Status(sid, Final)) then Resolved else pending[sid]
  {
  }

  lemma FutureCalledOff(pending: map<string, Future>, x: string, sid: string)
    requires sid in pending && x in pending
    ensures sid in CalledOff(pending, x)
    ensures CalledOff(pending, x)[sid] == if pending[sid].Waiting? && x == sid then Cancelled else pending[sid]
  {
  }

  // A session that ends publishes its final result, and stays in the table not running.
  lemma FinishAnswers(s: System, sid: string)
    requires Enabled(s, FinishSession(sid))
    ensures var t := Next(s, FinishSession(sid));
      && t.statuses == s.statuses + multiset{Status(sid, Final)} && t.published == s.published + multiset{sid}
      && t.sessions == s.sessions[sid := Session(s.sessions[sid].robot, false, s.sessions[sid].stop, s.sessions[sid].sequence)]
  {
  }

  lemma RunFirst(s: System, step: Step, rest: seq<Step>, t: System)
    requires Enabled(s, step) && Run(Next(s, step), rest, t)
    ensures Run(s, [step] + rest, t)
  {
    assert ([step] + rest)[1..] == rest;
  }

  // A session that runs and whose caller waits for its one result.
  ghost predicate Serving(s: System, sid: string) {
    sid in s.sessions && s.sessions[sid].running && sid in s.pending && s.pending[sid].Waiting? && s.resolved[sid] == 0
  }

  // Its end: the result resolves the future, and both tables forget the session.
  lemma ServedToTheEnd(s: System, sid: string) returns (steps: seq<Step>, t: System)
    requires Serving(s, sid)
    ensures Run(s, steps, t) && sid !in t.pending && sid !in t.sessions
    ensures t.resolved[sid] == 1 && t.velocities == s.velocities
  {
    var a, b, c, d := FinishSession(sid), DeliverStatus(Status(sid, Final)), ForgetSession(sid), ClientReturn(sid);
    var s1 := Next(s, a);
    var s2 := Next(s1, b);
    var s3 := Next(s2, c);
    t := Next(s3, d);
    RunFirst(s3, d, [], t);
    RunFirst(s2, c, [d], t);
    RunFirst(s1, b, [c] + [d], t);
    RunFirst(s, a, [b] + ([c] + [d]), t);
    steps := [a] + ([b] + ([c] + [d]));
  }

  // From every reachable state a new caller whose robot is known and free can be served:
  // its session starts, drives, ends and is taken out, and its future is resolved.
  lemma NewCallerCanBeServed(robots: set<string>, before: seq<Step>, s: System, sid: string, robot: string)
    returns (steps: seq<Step>, t: System)
    requires Run(Initial(robots), before, s) && sid != "" && sid !in s.issued && robot in robots
    requires forall x :: x in s.sessions ==> s.sessions[x].robot != robot
    ensures Run(s, steps, t) && t.resolved[sid] == 1 && NumbersOf(t.velocities, sid) == [1]
    ensures sid !in t.pending && sid !in t.sessions
  {
    InitialInv(robots);
    RunKeeps(Initial(robots), before, s);
    assert Account(s, sid) && Delivery(s, sid) && Numbering(s, sid);
    var s3: System;
    steps, s3 := NewCallerStarts(s, sid, robot);
    NumbersSnoc(s.velocities, sid, 1, sid);
    var rest: seq<Step>;
    rest, t := ServedToTheEnd(s3, sid);
    RunJoin(s, steps, s3, rest, t);
    steps := steps + rest;
  }

  // The start, its delivery and the first velocity command.
  lemma NewCallerStarts(s: System, sid: string, robot: string) returns (steps: seq<Step>, t: System)
    requires sid != "" && sid !in s.issued && sid !in s.sessions && robot in s.robots && s.resolved[sid] == 0
    requires forall x :: x in s.sessions ==> s.sessions[x].robot != robot
    ensures Run(s, steps, t) && Serving(t, sid) && t.velocities == s.velocities + [(sid, 1)]
  {
    var a, b, c := ClientStart(sid, robot), DeliverCommand(Start(sid, robot)), SendVelocity(sid);
    var s1 := Next(s, a);
    StartOutcome(s1, sid, robot);
    var s2 := Next(s1, b);
    t := Next(s2, c);
    RunFirst(s2, c, [], t);
    RunFirst(s1, b, [c], t);
    RunFirst(s, a, [b] + [c], t);
    steps := [a] + ([b] + [c]);
  }

  lemma {:induction false} RunJoin(s: System, first: seq<Step>, t: System, second: seq<Step>, u: System)
    requires Run(s, first, t) && Run(t, second, u)
    ensures Run(s, first + second, u)
    decreases |first|
  {
    if first == [] {
      assert first + second == second;
    } else {
      RunJoin(Next(s, first[0]), first[1..], t, second, u);
      assert (first + second)[1..] == first[1..] + second;
    }
  }
}
