/**
 The execution boundary of a robot: gates, the action lock, the bounded buffer, the
 watchdog and the stop calls, under every interleaving of single actions, policy results,
 cancellations and stops.
 */
module ControlPlane {
  import opened Wrappers
  import opened Lists
  import opened Numbers

  // `preempt` means that a stop is asked for and a stop function was given.
  datatype Action = Action(
    id: string, skill: string, timestamp: real, preempt: bool, actionType: string,
    deadlineAt: Option<real>, deadlineSec: Option<real>, dt: Option<real>, horizon: Option<real>)

  function Deadline(a: Action): Option<real> {
    if a.deadlineAt.Some? then a.deadlineAt
    else if a.deadlineSec.Some? then Some(a.timestamp + a.deadlineSec.value)
    else if a.dt.Some? && a.horizon.Some? then Some(a.timestamp + a.dt.value * a.horizon.value)
    else None
  }

  predicate Expired(a: Action, now: real) { Deadline(a).Some? && now > Deadline(a).value }

  datatype Entry = Entry(id: string, skill: string, submittedAt: real, deadlineAt: Option<real>, actionType: string)

  function EntryOf(a: Action, now: real): Entry { Entry(a.id, a.skill, now, Deadline(a), a.actionType) }

  datatype Watchdog = Watchdog(
    id: string, skill: string, duration: real, deadlineAt: Option<real>, missed: bool, success: bool, cancelled: bool)

  // How a driver call ends: with a status whose success may be absent, or not at all.
  datatype Ending = Status(success: Option<bool>) | Raised | Cancelled

  // Only an explicit failure, an exception or a cancellation ends a policy result early.
  predicate GoesOn(e: Ending) { e.Status? && e.success != Some(false) }

  function WatchdogOf(a: Action, startedAt: real, now: real, ending: Ending): Watchdog {
    Watchdog(a.id, a.skill, now - startedAt, Deadline(a), Expired(a, now), ending == Status(Some(true)), ending.Cancelled?)
  }

  // ---------------------------------------------------------------- the component

  datatype Core = Core(
    buffer: seq<Entry>, current: Option<string>, watchdog: Option<Watchdog>,
    preemptions: seq<(string, Option<bool>)>)

  // Between taking the lock and calling the driver.
  function Entered(c: Core, a: Action, now: real, size: nat): Core {
    c.(buffer := LastN(c.buffer + [EntryOf(a, now)], size), current := Some(a.id))
  }

  // After the driver call, however it ended, up to releasing the lock.
  function Left(c: Core, a: Action, startedAt: real, now: real, ending: Ending): Core {
    c.(watchdog := Some(WatchdogOf(a, startedAt, now, ending)),
       current := if c.current == Some(a.id) then None else c.current)
  }

  // After a preempting stop that returned a status.
  function Preempted(c: Core, a: Action, success: Option<bool>): Core {
    c.(preemptions := c.preemptions + [(a.id, success)])
  }

  class RobotControlPlane {
    const maxBufferSize: nat
    var buffer: seq<Entry>
    var current: Option<string>
    var watchdog: Option<Watchdog>
    var preemptions: seq<(string, Option<bool>)>

    function State(): Core reads this { Core(buffer, current, watchdog, preemptions) }

    constructor (maxBufferSize: int)
      ensures this.maxBufferSize == (if maxBufferSize > 1 then maxBufferSize else 1)
      ensures State() == Core([], None, None, [])
    {
      this.maxBufferSize := if maxBufferSize > 1 then maxBufferSize else 1;
      buffer, current, watchdog, preemptions := [], None, None, [];
    }

    method Enter(a: Action, now: real)
      modifies this
      ensures State() == Entered(old(State()), a, now, maxBufferSize)
    {
      buffer := buffer + [EntryOf(a, now)];
      if |buffer| > maxBufferSize { buffer := buffer[|buffer| - maxBufferSize..]; }
      current := Some(a.id);
    }

    method Leave(a: Action, startedAt: real, now: real, ending: Ending)
      modifies this
      ensures State() == Left(old(State()), a, startedAt, now, ending)
    {
      watchdog := Some(WatchdogOf(a, startedAt, now, ending));
      if current == Some(a.id) { current := None; }
    }

    method RecordPreemption(a: Action, success: Option<bool>)
      modifies this
      ensures State() == Preempted(old(State()), a, success)
    {
      preemptions := preemptions + [(a.id, success)];
    }

    // Runs the actions of a policy result in order; `answers` says how each one ends,
    // where an action refused by its deadline ends with a failure status.
    method ApplyPolicyResult(actions: seq<Action>, answers: nat -> Ending)
      returns (executed: seq<Action>, outcome: Ending)
      ensures executed <= actions
      ensures actions == [] ==> executed == [] && outcome == Status(Some(false))
      ensures actions != [] ==> executed != [] && outcome == answers(|executed| - 1)
      ensures forall j :: 0 <= j < |executed| - 1 ==> answers(j).Status? && answers(j).success != Some(false)
      ensures |executed| < |actions| ==> outcome.Raised? || outcome.Cancelled? || outcome == Status(Some(false))
    {
      executed, outcome := [], Status(Some(false));
      for i := 0 to |actions|
        invariant executed == actions[..i] && |executed| == i
        invariant outcome == if i == 0 then Status(Some(false)) else answers(i - 1)
        invariant forall j :: 0 <= j < i ==> GoesOn(answers(j))
      {
        executed := executed + [actions[i]];
        outcome := answers(i);
        if !GoesOn(outcome) { return; }
      }
      assert |executed| == |actions|;
    }
  }

  // ---------------------------------------------------------------- concurrent calls

  // Where the current action of a call stands.  `Admitted` passed the gates and asks for
  // the lock; no call rests there, since the code goes on without a pause.
  datatype Pc = Submitted | Admitted | Stopping | Waiting | Driving(startedAt: real) | Done

  // A call of the runtime's apply_action (one supervised action) or of apply_policy_result.
  datatype Task = Task(actions: seq<Action>, supervised: bool, index: nat, pc: Pc)

  datatype Caller =
    | Buffered(task: nat, index: nat, action: Action)
    | Preempting(task: nat, index: nat, action: Action)
    | Emergency(number: nat)

  datatype DriverCall = Begin(who: Caller) | End(who: Caller, ending: Ending)

  // The supervisor's answer, where one was asked, and the time of the deadline test.
  datatype Verdict = Verdict(supervisor: Option<bool>, now: real)

  // `queue` holds the calls waiting for the lock, in the order they came.  The last four
  // fields are histories: every verdict on an action, every buffer entry ever made, every
  // driver call, and the emergency stops under way.
  datatype Plane = Plane(
    size: nat, clock: real, tasks: map<nat, Task>, holder: Option<nat>, queue: seq<nat>, core: Core,
    verdicts: map<(nat, nat), Verdict>, entered: seq<Entry>, calls: seq<DriverCall>, emergencies: set<nat>)

  // A step is the code between two points where another coroutine can run.
  datatype Step =
    | Submit(task: nat, actions: seq<Action>, supervised: bool, now: real)
    | Gate(task: nat, safe: bool, now: real)          // the safety supervisor has answered
    | StopDone(task: nat, ending: Ending, now: real)  // the preempting stop, outside the lock
    | Acquire(task: nat, now: real)
    | Finish(task: nat, ending: Ending, now: real)
    | Abandon(task: nat)                              // cancelled before it holds the lock
    | EmergencyBegins(number: nat)
    | EmergencyEnds(number: nat, ending: Ending)

  predicate At(p: Plane, t: nat, pc: Pc) { t in p.tasks && p.tasks[t].pc == pc && p.tasks[t].index < |p.tasks[t].actions| }

  function ActionOf(p: Plane, t: nat): Action
    requires t in p.tasks && p.tasks[t].index < |p.tasks[t].actions|
  {
    p.tasks[t].actions[p.tasks[t].index]
  }

  function Move(p: Plane, t: nat, pc: Pc): Plane
    requires t in p.tasks
  {
    p.(tasks := p.tasks[t := p.tasks[t].(pc := pc)])
  }

  function Arrive(p: Plane, t: nat, actions: seq<Action>, supervised: bool): Plane {
    p.(tasks := p.tasks[t := Task(actions, supervised, 0, if actions == [] then Done else Submitted)])
  }

  // The supervisor's answer, then the deadline.
  function Judge(p: Plane, t: nat, supervisor: Option<bool>, now: real): Plane
    requires At(p, t, Submitted)
  {
    var passed := supervisor != Some(false) && !Expired(ActionOf(p, t), now);
    Move(p, t, if passed then Admitted else Done)
      .(verdicts := p.verdicts[(t, p.tasks[t].index) := Verdict(supervisor, now)])
  }

  function BeginStop(p: Plane, t: nat): Plane
    requires At(p, t, Admitted)
  {
    Move(p, t, Stopping).(calls := p.calls + [Begin(Preempting(t, p.tasks[t].index, ActionOf(p, t)))])
  }

  function EndStop(p: Plane, t: nat, ending: Ending): Plane
    requires At(p, t, Stopping)
  {
    Move(p, t, if ending.Status? then Admitted else Done)
      .(calls := p.calls + [End(Preempting(t, p.tasks[t].index, ActionOf(p, t)), ending)],
        core := if ending.Status? then Preempted(p.core, ActionOf(p, t), ending.success) else p.core)
  }

  function TakeLock(p: Plane, t: nat, now: real): Plane
    requires At(p, t, Admitted)
  {
    var a := ActionOf(p, t);
    Move(p, t, Driving(now))
      .(holder := Some(t), core := Entered(p.core, a, now, p.size), entered := p.entered + [EntryOf(a, now)],
        calls := p.calls + [Begin(Buffered(t, p.tasks[t].index, a))])
  }

  function Enqueue(p: Plane, t: nat): Plane
    requires At(p, t, Admitted)
  {
    Move(p, t, Waiting).(queue := p.queue + [t])
  }

  function Dequeue(p: Plane, t: nat): Plane
    requires At(p, t, Waiting) && p.queue != []
  {
    Move(p, t, Admitted).(queue := p.queue[1..])
  }

  function Withdraw(p: Plane, t: nat): Plane
    requires t in p.tasks
  {
    Move(p, t, Done).(queue := Without(p.queue, t))
  }

  // A free lock that nobody waits for is taken without a pause.
  function AskLock(p: Plane, t: nat, now: real): Plane
    requires At(p, t, Admitted)
  {
    if p.holder.None? && p.queue == [] then TakeLock(p, t, now)
    else Enqueue(p, t)
  }

  // From the gates to the next pause: refused, stopping, waiting or at the driver.
  function PassGates(p: Plane, t: nat, supervisor: Option<bool>, now: real): Plane
    requires At(p, t, Submitted)
  {
    var judged := Judge(p, t, supervisor, now);
    if judged.tasks[t].pc.Done? then judged
    else if ActionOf(p, t).preempt then BeginStop(judged, t)
    else AskLock(judged, t, now)
  }

  // The lock is released; a policy result whose action went well has its next action.
  function Release(p: Plane, t: nat, ending: Ending, now: real): Plane
    requires t in p.tasks && p.tasks[t].pc.Driving? && p.tasks[t].index < |p.tasks[t].actions|
  {
    var k, a := p.tasks[t], ActionOf(p, t);
    var more := GoesOn(ending) && k.index + 1 < |k.actions|;
    p.(tasks := p.tasks[t := if more then k.(index := k.index + 1, pc := Submitted) else k.(pc := Done)],
       holder := None, core := Left(p.core, a, k.pc.startedAt, now, ending),
       calls := p.calls + [End(Buffered(t, k.index, a), ending)])
  }

  predicate Enabled(p: Plane, step: Step) {
    match step
    case Submit(t, actions, supervised, now) =>
      t !in p.tasks && now >= p.clock && (supervised ==> |actions| == 1)
    case Gate(t, _, now) => At(p, t, Submitted) && now >= p.clock
    case StopDone(t, _, now) => At(p, t, Stopping) && now >= p.clock
    case Acquire(t, now) => At(p, t, Waiting) && p.holder.None? && p.queue != [] && p.queue[0] == t && now >= p.clock
    case Finish(t, _, now) =>
      t in p.tasks && p.tasks[t].pc.Driving? && p.tasks[t].index < |p.tasks[t].actions| && now >= p.clock
    case Abandon(t) => At(p, t, Submitted) || At(p, t, Waiting)
    case EmergencyBegins(n) => n !in p.emergencies
    case EmergencyEnds(n, _) => n in p.emergencies
  }

  function Next(p: Plane, step: Step): Plane
    requires Enabled(p, step)
  {
    match step
    case Submit(t, actions, supervised, now) =>
      var q := Arrive(p.(clock := now), t, actions, supervised);
      if supervised || actions == [] then q else PassGates(q, t, None, now)
    case Gate(t, safe, now) => PassGates(p.(clock := now), t, Some(safe), now)
    case StopDone(t, ending, now) =>
      var q := EndStop(p.(clock := now), t, ending);
      if ending.Status? then AskLock(q, t, now) else q
    case Acquire(t, now) => TakeLock(Dequeue(p.(clock := now), t), t, now)
    case Finish(t, ending, now) =>
      var q := Release(p.(clock := now), t, ending, now);
      if q.tasks[t].pc.Submitted? then PassGates(q, t, None, now) else q
    case Abandon(t) => Withdraw(p, t)
    case EmergencyBegins(n) => p.(emergencies := p.emergencies + {n}, calls := p.calls + [Begin(Emergency(n))])
    case EmergencyEnds(n, ending) => p.(emergencies := p.emergencies - {n}, calls := p.calls + [End(Emergency(n), ending)])
  }

  predicate Run(p: Plane, steps: seq<Step>, q: Plane)
    decreases |steps|
  {
    if steps == [] then p == q else Enabled(p, steps[0]) && Run(Next(p, steps[0]), steps[1..], q)
  }

  function Initial(size: nat, clock: real): Plane {
    Plane(size, clock, map[], None, [], Core([], None, None, []), map[], [], [], {})
  }

  // ---------------------------------------------------------------- what the driver saw

  // The calls that have begun and not ended.
  function Open(calls: seq<DriverCall>): set<Caller> {
    if calls == [] then {}
    else
      var before, last := Open(calls[..|calls| - 1]), calls[|calls| - 1];
      if last.Begin? then before + {last.who} else before - {last.who}
  }

  predicate OneBuffered(open: set<Caller>) {
    forall c, d :: c in open && d in open && c.Buffered? && d.Buffered? ==> c == d
  }

  // At no moment were two buffered calls open.
  predicate NeverTwoBuffered(calls: seq<DriverCall>) {
    calls == [] || (OneBuffered(Open(calls)) && NeverTwoBuffered(calls[..|calls| - 1]))
  }

  // The buffered driver calls of one task.
  function Mine(calls: seq<DriverCall>, t: nat): seq<DriverCall> {
    if calls == [] then []
    else
      var last := calls[|calls| - 1];
      Mine(calls[..|calls| - 1], t) + if last.who.Buffered? && last.who.task == t then [last] else []
  }

  // The actions of the buffered calls, in the order they began.
  function Begun(calls: seq<DriverCall>): seq<Action> {
    if calls == [] then []
    else
      var last := calls[|calls| - 1];
      Begun(calls[..|calls| - 1]) + if last.Begin? && last.who.Buffered? then [last.who.action] else []
  }

  // The buffered calls that ended, and how.
  function Ended(calls: seq<DriverCall>): seq<(Action, Ending)> {
    if calls == [] then []
    else
      var last := calls[|calls| - 1];
      Ended(calls[..|calls| - 1]) + if last.End? && last.who.Buffered? then [(last.who.action, last.ending)] else []
  }

  // The preempting stops that returned a status.
  function Stopped(calls: seq<DriverCall>): seq<(string, Option<bool>)> {
    if calls == [] then []
    else
      var last := calls[|calls| - 1];
      Stopped(calls[..|calls| - 1]) +
        if last.End? && last.who.Preempting? && last.ending.Status? then [(last.who.action.id, last.ending.success)] else []
  }

  lemma OpenSnoc(calls: seq<DriverCall>, c: DriverCall)
    ensures Open(calls + [c]) == if c.Begin? then Open(calls) + {c.who} else Open(calls) - {c.who}
    ensures NeverTwoBuffered(calls + [c]) <==> OneBuffered(Open(calls + [c])) && NeverTwoBuffered(calls)
  {
    assert (calls + [c])[..|calls|] == calls;
  }

  lemma MineSnoc(calls: seq<DriverCall>, c: DriverCall, t: nat)
    ensures Mine(calls + [c], t) == if c.who.Buffered? && c.who.task == t then Mine(calls, t) + [c] else Mine(calls, t)
  {
    assert (calls + [c])[..|calls|] == calls;
    assert Mine(calls, t) + [] == Mine(calls, t);
  }

  lemma BegunSnoc(calls: seq<DriverCall>, c: DriverCall)
    ensures Begun(calls + [c]) == if c.Begin? && c.who.Buffered? then Begun(calls) + [c.who.action] else Begun(calls)
  {
    assert (calls + [c])[..|calls|] == calls;
    assert Begun(calls) + [] == Begun(calls);
  }

  lemma EndedSnoc(calls: seq<DriverCall>, c: DriverCall)
    ensures Ended(calls + [c])
         == if c.End? && c.who.Buffered? then Ended(calls) + [(c.who.action, c.ending)] else Ended(calls)
  {
    assert (calls + [c])[..|calls|] == calls;
    assert Ended(calls) + [] == Ended(calls);
  }

  lemma StoppedSnoc(calls: seq<DriverCall>, c: DriverCall)
    ensures Stopped(calls + [c])
         == if c.End? && c.who.Preempting? && c.ending.Status?
            then Stopped(calls) + [(c.who.action.id, c.ending.success)] else Stopped(calls)
  {
    assert (calls + [c])[..|calls|] == calls;
    assert Stopped(calls) + [] == Stopped(calls);
  }

  // ---------------------------------------------------------------- invariants

  ghost predicate Shaped(p: Plane) {
    && p.size >= 1
    && forall t :: t in p.tasks ==>
         (p.tasks[t].pc.Done? || p.tasks[t].index < |p.tasks[t].actions|)
         && (p.tasks[t].supervised ==> |p.tasks[t].actions| == 1)
  }

  // The holder of the lock is the one task at the driver, and its action is the current one.
  ghost predicate Locked(p: Plane) {
    && (forall t :: t in p.tasks && p.tasks[t].pc.Driving? ==> p.holder == Some(t))
    && (match p.holder
        case None => p.core.current.None?
        case Some(t) =>
          && t in p.tasks && p.tasks[t].pc.Driving? && p.tasks[t].index < |p.tasks[t].actions|
          && p.core.current == Some(ActionOf(p, t).id))
  }

  ghost predicate Queued(p: Plane) {
    && Distinct(p.queue)
    && forall t: nat :: t in p.queue <==> t in p.tasks && p.tasks[t].pc.Waiting?
  }

  // A call is open exactly while its task stands at the driver, or its stop is under way.
  predicate IsOpen(p: Plane, c: Caller) {
    match c
    case Buffered(t, i, a) =>
      t in p.tasks && p.tasks[t].pc.Driving? && p.tasks[t].index == i < |p.tasks[t].actions| && p.tasks[t].actions[i] == a
    case Preempting(t, i, a) =>
      t in p.tasks && p.tasks[t].pc.Stopping? && p.tasks[t].index == i < |p.tasks[t].actions| && p.tasks[t].actions[i] == a
    case Emergency(n) => n in p.emergencies
  }

  ghost predicate OpenCalls(p: Plane) {
    NeverTwoBuffered(p.calls) && forall c :: c in Open(p.calls) <==> IsOpen(p, c)
  }

  // The driver calls of one task: its actions in order, each ended before the next and,
  // but for the last, without failure, exception or cancellation.
  predicate InOrder(mine: seq<DriverCall>, t: nat, actions: seq<Action>) {
    && |mine| <= 2 * |actions|
    && forall k :: 0 <= k < |mine| ==> InOrderAt(mine, t, actions, k)
  }

  predicate NoFailure(e: Ending) { !e.Raised? && !e.Cancelled? && e != Status(Some(false)) }

  predicate InOrderAt(mine: seq<DriverCall>, t: nat, actions: seq<Action>, k: nat)
    requires k < |mine| <= 2 * |actions|
  {
    && mine[k].who == Buffered(t, k / 2, actions[k / 2])
    && (if k % 2 == 0 then mine[k].Begin? else mine[k].End? && (k + 1 < |mine| ==> NoFailure(mine[k].ending)))
  }

  // How far a task's driver calls are, by where it stands.
  predicate Reached(k: Task, mine: seq<DriverCall>) {
    match k.pc
    case Driving(_) => |mine| == 2 * k.index + 1
    case Done => |mine| % 2 == 0
    case _ => |mine| == 2 * k.index && (mine != [] ==> mine[|mine| - 1].End? && GoesOn(mine[|mine| - 1].ending))
  }

  predicate SeriesOf(k: Task, t: nat, mine: seq<DriverCall>) { InOrder(mine, t, k.actions) && Reached(k, mine) }

  ghost predicate SeriesAt(p: Plane, t: nat) {
    if t in p.tasks then SeriesOf(p.tasks[t], t, Mine(p.calls, t)) else Mine(p.calls, t) == []
  }

  ghost predicate Series(p: Plane) { forall t: nat :: SeriesAt(p, t) }

  // Read off the action's own fields: an absolute deadline comes first, then one relative
  // to its timestamp, then the end of its horizon.
  predicate PastDue(a: Action, now: real) {
    || (a.deadlineAt.Some? && now > a.deadlineAt.value)
    || (a.deadlineAt.None? && a.deadlineSec.Some? && now > a.timestamp + a.deadlineSec.value)
    || (a.deadlineAt.None? && a.deadlineSec.None? && a.dt.Some? && a.horizon.Some?
        && now > a.timestamp + a.dt.value * a.horizon.value)
  }

  predicate HasDue(a: Action) { a.deadlineAt.Some? || a.deadlineSec.Some? || (a.dt.Some? && a.horizon.Some?) }

  // `due` is the moment after which the action is past due.
  predicate DueAt(a: Action, due: Option<real>) {
    && (due.Some? <==> HasDue(a))
    && (a.deadlineAt.Some? ==> due == a.deadlineAt)
    && (a.deadlineAt.None? && a.deadlineSec.Some? ==> due == Some(a.timestamp + a.deadlineSec.value))
    && (a.deadlineAt.None? && a.deadlineSec.None? && a.dt.Some? && a.horizon.Some? ==>
          due == Some(a.timestamp + a.dt.value * a.horizon.value))
  }

  lemma DueIsDeadline(a: Action, now: real)
    ensures DueAt(a, Deadline(a)) && (Expired(a, now) <==> PastDue(a, now))
    ensures Deadline(a).Some? ==> (PastDue(a, now) <==> now > Deadline(a).value)
  {
  }

  // The action was in time when it was judged, and a supervised one was found safe.
  predicate Passed(p: Plane, t: nat, i: nat) {
    && t in p.tasks && i < |p.tasks[t].actions| && (t, i) in p.verdicts
    && !PastDue(p.tasks[t].actions[i], p.verdicts[(t, i)].now)
    && (p.tasks[t].supervised ==> p.verdicts[(t, i)].supervisor == Some(true))
  }

  predicate PastGates(pc: Pc) { pc.Admitted? || pc.Stopping? || pc.Waiting? || pc.Driving? }

  ghost predicate Gated(p: Plane) {
    && (forall k :: k in p.verdicts ==>
          k.0 in p.tasks && (k.1 < p.tasks[k.0].index || (k.1 == p.tasks[k.0].index && !p.tasks[k.0].pc.Submitted?)))
    && (forall t :: t in p.tasks && PastGates(p.tasks[t].pc) ==> Passed(p, t, p.tasks[t].index))
    && (forall k :: 0 <= k < |p.calls| && p.calls[k].Begin? && p.calls[k].who.Buffered? ==> PassedCall(p, p.calls[k].who))
  }

  predicate PassedCall(p: Plane, c: Caller)
    requires c.Buffered?
  {
    Passed(p, c.task, c.index) && p.tasks[c.task].actions[c.index] == c.action
  }

  predicate WatchdogFits(w: Option<Watchdog>, ended: seq<(Action, Ending)>) {
    if ended == [] then w.None?
    else
      var (a, ending) := ended[|ended| - 1];
      w.Some? && w.value.id == a.id && w.value.skill == a.skill && DueAt(a, w.value.deadlineAt)
      && w.value.success == (ending == Status(Some(true))) && w.value.cancelled == ending.Cancelled?
  }

  predicate EntryFits(e: Entry, a: Action) {
    e.id == a.id && e.skill == a.skill && e.actionType == a.actionType && DueAt(a, e.deadlineAt)
  }

  // One entry for each action that began, made from it.
  predicate EntriesFit(entered: seq<Entry>, begun: seq<Action>) {
    && |entered| == |begun|
    && forall k :: 0 <= k < |entered| ==> EntryFits(entered[k], begun[k])
  }

  // The records kept for diagnosis agree with what the driver saw.
  ghost predicate Recorded(p: Plane) {
    && p.core.buffer == LastN(p.entered, p.size)
    && EntriesFit(p.entered, Begun(p.calls))
    && WatchdogFits(p.core.watchdog, Ended(p.calls))
    && p.core.preemptions == Stopped(p.calls)
  }

  ghost predicate Inv(p: Plane) {
    Shaped(p) && Locked(p) && Queued(p) && OpenCalls(p) && Series(p) && Gated(p) && Recorded(p)
  }

  // ---------------------------------------------------------------- frames

  // Only task t may differ between the two planes.
  ghost predicate OnlyTask(p: Plane, q: Plane, t: nat) {
    && (forall s :: s != t ==> (s in q.tasks <==> s in p.tasks))
    && (forall s :: s != t && s in p.tasks ==> q.tasks[s] == p.tasks[s])
    && q.size == p.size
  }

  lemma LocksAfter(p: Plane, q: Plane, t: nat)
    requires Shaped(p) && Locked(p) && OnlyTask(p, q, t) && t in q.tasks
    requires q.tasks[t].pc.Done? || q.tasks[t].index < |q.tasks[t].actions|
    requires q.tasks[t].supervised ==> |q.tasks[t].actions| == 1
    requires if q.tasks[t].pc.Driving?
             then p.holder in {None, Some(t)} && q.holder == Some(t) && q.core.current == Some(ActionOf(q, t).id)
             else q.holder == (if p.holder == Some(t) then None else p.holder)
                  && q.core.current == if p.holder == Some(t) then None else p.core.current
    ensures Shaped(q) && Locked(q)
  {
  }

  lemma OpenAfter(p: Plane, q: Plane, c: DriverCall)
    requires OpenCalls(p) && q.calls == p.calls + [c]
    requires forall d :: IsOpen(q, d) <==> if c.Begin? then IsOpen(p, d) || d == c.who else IsOpen(p, d) && d != c.who
    requires c.Begin? && c.who.Buffered? ==> forall d :: IsOpen(p, d) ==> !d.Buffered?
    ensures OpenCalls(q)
  {
    OpenSnoc(p.calls, c);
    forall d ensures d in Open(q.calls) <==> IsOpen(q, d) { assert d in Open(p.calls) <==> IsOpen(p, d); }
    assert OneBuffered(Open(p.calls)) by {
      if p.calls == [] { assert Open(p.calls) == {}; }
    }
  }

  lemma SeriesAfter(p: Plane, q: Plane, t: nat, c: DriverCall)
    requires Series(p) && OnlyTask(p, q, t) && q.calls == p.calls + [c]
    requires c.who.Buffered? ==> c.who.task == t
    requires SeriesAt(q, t)
    ensures Series(q)
  {
    forall s: nat ensures SeriesAt(q, s) {
      assert SeriesAt(p, s);
      if s != t { SeriesElsewhere(p, q, s, c); }
    }
  }

  lemma SeriesElsewhere(p: Plane, q: Plane, s: nat, c: DriverCall)
    requires SeriesAt(p, s) && q.calls == p.calls + [c] && !(c.who.Buffered? && c.who.task == s)
    requires s in q.tasks <==> s in p.tasks
    requires s in p.tasks ==> q.tasks[s] == p.tasks[s]
    ensures SeriesAt(q, s)
  {
    MineSnoc(p.calls, c, s);
  }

  ghost predicate KeepsVerdicts(p: Plane, q: Plane) {
    && (forall k :: k in p.verdicts ==> k in q.verdicts && q.verdicts[k] == p.verdicts[k])
    && (forall s :: s in p.tasks ==>
          s in q.tasks && q.tasks[s].actions == p.tasks[s].actions && q.tasks[s].supervised == p.tasks[s].supervised)
  }

  lemma PassedKept(p: Plane, q: Plane, t: nat, i: nat)
    requires KeepsVerdicts(p, q) && Passed(p, t, i)
    ensures Passed(q, t, i)
  {
  }

  lemma GatedAfter(p: Plane, q: Plane, t: nat)
    requires Gated(p) && KeepsVerdicts(p, q) && OnlyTask(p, q, t)
    requires forall k :: k in q.verdicts && k.0 != t ==> k in p.verdicts
    requires forall k :: k in q.verdicts && k.0 == t ==>
      t in q.tasks && (k.1 < q.tasks[t].index || (k.1 == q.tasks[t].index && !q.tasks[t].pc.Submitted?))
    requires t in q.tasks && PastGates(q.tasks[t].pc) ==> Passed(q, t, q.tasks[t].index)
    requires q.calls == p.calls || (|q.calls| == |p.calls| + 1 && q.calls[..|p.calls|] == p.calls
               && (q.calls[|p.calls|].Begin? && q.calls[|p.calls|].who.Buffered? ==> PassedCall(q, q.calls[|p.calls|].who)))
    ensures Gated(q)
  {
    forall k | k in q.verdicts
      ensures k.0 in q.tasks && (k.1 < q.tasks[k.0].index || (k.1 == q.tasks[k.0].index && !q.tasks[k.0].pc.Submitted?))
    {
    }
    forall s | s in q.tasks && PastGates(q.tasks[s].pc) ensures Passed(q, s, q.tasks[s].index) {
      if s != t { PassedKept(p, q, s, q.tasks[s].index); }
    }
    forall k | 0 <= k < |q.calls| && q.calls[k].Begin? && q.calls[k].who.Buffered? ensures PassedCall(q, q.calls[k].who) {
      if k < |p.calls| {
        assert q.calls[k] == p.calls[k] && PassedCall(p, p.calls[k].who);
        PassedKept(p, q, p.calls[k].who.task, p.calls[k].who.index);
      }
    }
  }

  // ---------------------------------------------------------------- each part of a step

  // A step is made of parts; in the last four the driver sees a call begin or end.
  datatype Part =
    | Arrived(actions: seq<Action>, supervised: bool)
    | Judged(supervisor: Option<bool>, now: real)
    | Enqueued
    | Dequeued
    | Abandoned
    | StopBegins
    | StopEnds(ending: Ending)
    | Taken(now: real)
    | Released(ending: Ending, now: real)

  predicate Silent(part: Part) {
    part.Arrived? || part.Judged? || part.Enqueued? || part.Dequeued? || part.Abandoned?
  }

  predicate Ready(p: Plane, t: nat, part: Part) {
    match part
    case Arrived(actions, supervised) => t !in p.tasks && (supervised ==> |actions| == 1)
    case Judged(supervisor, _) => At(p, t, Submitted) && (p.tasks[t].supervised ==> supervisor.Some?)
    case Enqueued => At(p, t, Admitted)
    case Dequeued => At(p, t, Waiting) && p.queue != [] && p.queue[0] == t
    case Abandoned => At(p, t, Submitted) || At(p, t, Waiting)
    case StopBegins => At(p, t, Admitted)
    case StopEnds(_) => At(p, t, Stopping)
    case Taken(_) => At(p, t, Admitted) && p.holder.None?
    case Released(_, _) => t in p.tasks && p.tasks[t].pc.Driving? && p.tasks[t].index < |p.tasks[t].actions|
  }

  function Do(p: Plane, t: nat, part: Part): Plane
    requires Ready(p, t, part)
  {
    match part
    case Arrived(actions, supervised) => Arrive(p, t, actions, supervised)
    case Judged(supervisor, now) => Judge(p, t, supervisor, now)
    case Enqueued => Enqueue(p, t)
    case Dequeued => Dequeue(p, t)
    case Abandoned => Withdraw(p, t)
    case StopBegins => BeginStop(p, t)
    case StopEnds(ending) => EndStop(p, t, ending)
    case Taken(now) => TakeLock(p, t, now)
    case Released(ending, now) => Release(p, t, ending, now)
  }

  function CallOf(p: Plane, t: nat, part: Part): DriverCall
    requires Ready(p, t, part) && !Silent(part)
  {
    var i, a := p.tasks[t].index, ActionOf(p, t);
    match part
    case StopBegins => Begin(Preempting(t, i, a))
    case StopEnds(ending) => End(Preempting(t, i, a), ending)
    case Taken(now) => Begin(Buffered(t, i, a))
    case Released(ending, now) => End(Buffered(t, i, a), ending)
  }

  lemma SilentKeepsLocks(p: Plane, t: nat, part: Part)
    requires Shaped(p) && Locked(p) && Ready(p, t, part) && Silent(part)
    ensures Shaped(Do(p, t, part)) && Locked(Do(p, t, part))
  {
    LocksAfter(p, Do(p, t, part), t);
  }

  lemma CallKeepsLocks(p: Plane, t: nat, part: Part)
    requires Shaped(p) && Locked(p) && Ready(p, t, part) && !Silent(part)
    ensures Shaped(Do(p, t, part)) && Locked(Do(p, t, part))
  {
    LocksAfter(p, Do(p, t, part), t);
  }

  // The queue holds the waiting calls again when task t joined, left or stayed out of it.
  lemma QueuedAfter(p: Plane, q: Plane, t: nat)
    requires Queued(p) && OnlyTask(p, q, t) && t in q.tasks && Distinct(q.queue)
    requires forall s: nat :: s in q.queue <==> if s == t then q.tasks[t].pc.Waiting? else s in p.queue
    ensures Queued(q)
  {
  }

  lemma PartKeepsQueue(p: Plane, t: nat, part: Part)
    requires Queued(p) && Ready(p, t, part)
    ensures Queued(Do(p, t, part))
  {
    var q := Do(p, t, part);
    assert t in p.queue <==> t in p.tasks && p.tasks[t].pc.Waiting?;
    match part {
      case Abandoned =>
        WithoutMembers(p.queue, t);
        WithoutDistinct(p.queue, t);
      case Dequeued => TailMembers(p.queue);
      case Enqueued => SnocMembers(p.queue, t);
      case _ =>
    }
    QueuedAfter(p, q, t);
  }

  lemma TailMembers<T>(s: seq<T>)
    requires s != [] && Distinct(s)
    ensures Distinct(s[1..]) && forall x :: x in s[1..] <==> x in s && x != s[0]
  {
    assert s == [s[0]] + s[1..];
  }

  lemma SnocMembers<T>(s: seq<T>, x: T)
    requires Distinct(s) && x !in s
    ensures Distinct(s + [x]) && forall y :: y in s + [x] <==> y in s || y == x
  {
  }

  lemma SilentKeepsOpen(p: Plane, t: nat, part: Part)
    requires OpenCalls(p) && Ready(p, t, part) && Silent(part)
    ensures OpenCalls(Do(p, t, part))
  {
    var q := Do(p, t, part);
    forall c ensures c in Open(q.calls) <==> IsOpen(q, c) { assert c in Open(p.calls) <==> IsOpen(p, c); }
  }

  lemma CallKeepsOpen(p: Plane, t: nat, part: Part)
    requires OpenCalls(p) && Locked(p) && Ready(p, t, part) && !Silent(part)
    ensures OpenCalls(Do(p, t, part))
  {
    OpenAfter(p, Do(p, t, part), CallOf(p, t, part));
  }

  lemma SilentKeepsSeries(p: Plane, t: nat, part: Part)
    requires Series(p) && Ready(p, t, part) && Silent(part)
    ensures Series(Do(p, t, part))
  {
    var q := Do(p, t, part);
    forall s: nat ensures SeriesAt(q, s) { assert SeriesAt(p, s); }
  }

  lemma InOrderSnoc(mine: seq<DriverCall>, t: nat, actions: seq<Action>, c: DriverCall)
    requires InOrder(mine, t, actions) && |mine| < 2 * |actions|
    requires c.who == Buffered(t, |mine| / 2, actions[|mine| / 2])
    requires if |mine| % 2 == 0 then c.Begin? else c.End?
    requires |mine| > 0 && |mine| % 2 == 0 ==> mine[|mine| - 1].End? && GoesOn(mine[|mine| - 1].ending)
    ensures InOrder(mine + [c], t, actions)
  {
    forall k | 0 <= k < |mine + [c]| ensures InOrderAt(mine + [c], t, actions, k) {
      if k < |mine| { assert InOrderAt(mine, t, actions, k); }
    }
  }

  lemma CallKeepsSeries(p: Plane, t: nat, part: Part)
    requires Series(p) && Ready(p, t, part) && !Silent(part)
    ensures Series(Do(p, t, part))
  {
    assert SeriesAt(p, t);
    match part {
      case Taken(now) => TakenSeriesAt(p, t, now);
      case Released(ending, now) => ReleasedSeriesAt(p, t, ending, now);
      case _ => StopKeepsSeriesAt(p, t, part);
    }
    SeriesAfter(p, Do(p, t, part), t, CallOf(p, t, part));
  }

  lemma StopKeepsSeriesAt(p: Plane, t: nat, part: Part)
    requires SeriesAt(p, t) && Ready(p, t, part) && (part.StopBegins? || part.StopEnds?)
    ensures SeriesAt(Do(p, t, part), t)
  {
    MineSnoc(p.calls, CallOf(p, t, part), t);
    StopKeepsSeriesOf(p.tasks[t], Do(p, t, part).tasks[t], t, Mine(p.calls, t));
  }

  lemma StopKeepsSeriesOf(k: Task, after: Task, t: nat, mine: seq<DriverCall>)
    requires SeriesOf(k, t, mine) && (k.pc.Admitted? || k.pc.Stopping?)
    requires after in {k.(pc := Admitted), k.(pc := Stopping), k.(pc := Done)}
    ensures SeriesOf(after, t, mine)
  {
  }

  lemma TakenSeriesAt(p: Plane, t: nat, now: real)
    requires SeriesAt(p, t) && At(p, t, Admitted)
    ensures SeriesAt(TakeLock(p, t, now), t)
  {
    var c := Begin(Buffered(t, p.tasks[t].index, ActionOf(p, t)));
    TakenSeriesOf(p.tasks[t], t, Mine(p.calls, t), c, now);
    SeriesWith(p, TakeLock(p, t, now), t, c);
  }

  lemma TakenSeriesOf(k: Task, t: nat, mine: seq<DriverCall>, c: DriverCall, now: real)
    requires SeriesOf(k, t, mine) && k.pc.Admitted? && k.index < |k.actions|
    requires c == Begin(Buffered(t, k.index, k.actions[k.index]))
    ensures SeriesOf(k.(pc := Driving(now)), t, mine + [c])
  {
    InOrderSnoc(mine, t, k.actions, c);
  }

  lemma ReleasedSeriesAt(p: Plane, t: nat, ending: Ending, now: real)
    requires SeriesAt(p, t) && Ready(p, t, Released(ending, now))
    ensures SeriesAt(Release(p, t, ending, now), t)
  {
    var c := End(Buffered(t, p.tasks[t].index, ActionOf(p, t)), ending);
    var q := Release(p, t, ending, now);
    ReleasedSeriesOf(p.tasks[t], q.tasks[t], t, Mine(p.calls, t), c);
    SeriesWith(p, q, t, c);
  }

  lemma SeriesWith(p: Plane, q: Plane, t: nat, c: DriverCall)
    requires t in q.tasks && q.calls == p.calls + [c] && c.who.Buffered? && c.who.task == t
    requires SeriesOf(q.tasks[t], t, Mine(p.calls, t) + [c])
    ensures SeriesAt(q, t)
  {
    MineSnoc(p.calls, c, t);
  }

  lemma ReleasedSeriesOf(k: Task, after: Task, t: nat, mine: seq<DriverCall>, c: DriverCall)
    requires SeriesOf(k, t, mine) && k.pc.Driving? && k.index < |k.actions|
    requires c.End? && c.who == Buffered(t, k.index, k.actions[k.index])
    requires after == (if GoesOn(c.ending) && k.index + 1 < |k.actions| then k.(index := k.index + 1, pc := Submitted) else k.(pc := Done))
    ensures SeriesOf(after, t, mine + [c])
  {
    assert |mine| / 2 == k.index;
    InOrderSnoc(mine, t, k.actions, c);
    ReachedByEnd(k, mine, c, after);
  }

  lemma ReachedByEnd(k: Task, mine: seq<DriverCall>, c: DriverCall, after: Task)
    requires |mine| == 2 * k.index + 1 && c.End?
    requires after == (if GoesOn(c.ending) && k.index + 1 < |k.actions| then k.(index := k.index + 1, pc := Submitted) else k.(pc := Done))
    ensures Reached(after, mine + [c])
  {
  }

  lemma SilentKeepsGated(p: Plane, t: nat, part: Part)
    requires Gated(p) && Ready(p, t, part) && Silent(part)
    ensures Gated(Do(p, t, part))
  {
    var q := Do(p, t, part);
    if part.Judged? {
      JudgedIsGated(p, t, part.supervisor, part.now);
    } else {
      if t in p.tasks && PastGates(p.tasks[t].pc) { PassedKept(p, q, t, p.tasks[t].index); }
      GatedAfter(p, q, t);
    }
  }

  lemma JudgedIsGated(p: Plane, t: nat, supervisor: Option<bool>, now: real)
    requires Gated(p) && At(p, t, Submitted) && (p.tasks[t].supervised ==> supervisor.Some?)
    ensures Gated(Judge(p, t, supervisor, now))
  {
    var q := Judge(p, t, supervisor, now);
    var key := (t, p.tasks[t].index);
    assert key.0 == t && key.1 == p.tasks[t].index;
    assert key !in p.verdicts;
    assert KeepsVerdicts(p, q);
    if q.tasks[t].pc.Admitted? {
      assert q.verdicts[key] == Verdict(supervisor, now) && !PastDue(ActionOf(p, t), now) by { DueIsDeadline(ActionOf(p, t), now); }
      assert supervisor.Some? ==> supervisor.value;
      assert Passed(q, t, key.1);
    }
    GatedAfter(p, q, t);
  }

  lemma CallKeepsGated(p: Plane, t: nat, part: Part)
    requires Gated(p) && Ready(p, t, part) && !Silent(part)
    ensures Gated(Do(p, t, part))
  {
    var q := Do(p, t, part);
    assert PastGates(p.tasks[t].pc) && Passed(p, t, p.tasks[t].index);
    PassedKept(p, q, t, p.tasks[t].index);
    GatedAfter(p, q, t);
  }

  lemma SilentKeepsRecords(p: Plane, t: nat, part: Part)
    requires Recorded(p) && Ready(p, t, part) && Silent(part)
    ensures Recorded(Do(p, t, part))
  {
  }

  lemma CallKeepsRecords(p: Plane, t: nat, part: Part)
    requires Recorded(p) && Ready(p, t, part) && !Silent(part)
    ensures Recorded(Do(p, t, part))
  {
    if part.Taken? {
      TakenKeepsRecords(p, t, part.now);
    } else if part.Released? {
      ReleasedKeepsRecords(p, t, part.ending, part.now);
    } else {
      StopKeepsRecords(p, Do(p, t, part), CallOf(p, t, part));
    }
  }

  lemma TakenKeepsRecords(p: Plane, t: nat, now: real)
    requires Recorded(p) && At(p, t, Admitted)
    ensures Recorded(TakeLock(p, t, now))
  {
    var a, c := ActionOf(p, t), Begin(Buffered(t, p.tasks[t].index, ActionOf(p, t)));
    BegunSnoc(p.calls, c);
    EndedSnoc(p.calls, c);
    StoppedSnoc(p.calls, c);
    EntriesSnoc(p.entered, Begun(p.calls), a, now);
    LastNSnoc(p.entered, EntryOf(a, now), p.size);
  }

  lemma ReleasedKeepsRecords(p: Plane, t: nat, ending: Ending, now: real)
    requires Recorded(p) && Ready(p, t, Released(ending, now))
    ensures Recorded(Release(p, t, ending, now))
  {
    var c := End(Buffered(t, p.tasks[t].index, ActionOf(p, t)), ending);
    BegunSnoc(p.calls, c);
    EndedSnoc(p.calls, c);
    StoppedSnoc(p.calls, c);
  }

  // A stop that begins leaves no record, and one that ends with a status leaves its own.
  lemma StopKeepsRecords(p: Plane, q: Plane, c: DriverCall)
    requires Recorded(p) && q.calls == p.calls + [c] && !c.who.Buffered?
    requires q.size == p.size && q.entered == p.entered
    requires q.core == if c.End? && c.who.Preempting? && c.ending.Status?
                       then Preempted(p.core, c.who.action, c.ending.success) else p.core
    ensures Recorded(q)
  {
    BegunSnoc(p.calls, c);
    EndedSnoc(p.calls, c);
    StoppedSnoc(p.calls, c);
  }

  lemma EntriesSnoc(entered: seq<Entry>, begun: seq<Action>, a: Action, now: real)
    requires EntriesFit(entered, begun)
    ensures EntriesFit(entered + [EntryOf(a, now)], begun + [a])
  {
    assert EntryFits(EntryOf(a, now), a);
  }

  lemma LastNSnoc<T>(s: seq<T>, x: T, n: nat)
    ensures LastN(LastN(s, n) + [x], n) == LastN(s + [x], n)
  {
  }

  lemma PartKeeps(p: Plane, t: nat, part: Part)
    requires Inv(p) && Ready(p, t, part)
    ensures Inv(Do(p, t, part))
  {
    PartKeepsQueue(p, t, part);
    if Silent(part) {
      SilentKeepsLocks(p, t, part);
      SilentKeepsRecords(p, t, part);
      SilentKeepsOpen(p, t, part);
      SilentKeepsSeries(p, t, part);
      SilentKeepsGated(p, t, part);
    } else {
      CallKeepsLocks(p, t, part);
      CallKeepsRecords(p, t, part);
      CallKeepsOpen(p, t, part);
      CallKeepsSeries(p, t, part);
      CallKeepsGated(p, t, part);
    }
  }

  // An emergency stop begins or ends.
  ghost predicate EmergencyMove(p: Plane, q: Plane, c: DriverCall) {
    && c.who.Emergency? && (c.Begin? <==> c.who.number !in p.emergencies)
    && q == p.(calls := p.calls + [c],
               emergencies := if c.Begin? then p.emergencies + {c.who.number} else p.emergencies - {c.who.number})
  }

  lemma EmergencyKeeps(p: Plane, q: Plane, c: DriverCall)
    requires Inv(p) && EmergencyMove(p, q, c)
    ensures Inv(q)
  {
    EmergencyKeepsOpen(p, q, c);
    EmergencyKeepsSeries(p, q, c);
    EmergencyKeepsGated(p, q, c);
    StopKeepsRecords(p, q, c);
  }

  lemma EmergencyKeepsOpen(p: Plane, q: Plane, c: DriverCall)
    requires OpenCalls(p) && EmergencyMove(p, q, c)
    ensures OpenCalls(q)
  {
    OpenAfter(p, q, c);
  }

  lemma EmergencyKeepsGated(p: Plane, q: Plane, c: DriverCall)
    requires Gated(p) && EmergencyMove(p, q, c)
    ensures Gated(q)
  {
    GatedAfter(p, q, 0);
  }

  lemma EmergencyKeepsSeries(p: Plane, q: Plane, c: DriverCall)
    requires Series(p) && EmergencyMove(p, q, c)
    ensures Series(q)
  {
    forall s: nat ensures SeriesAt(q, s) {
      assert SeriesAt(p, s);
      SeriesElsewhere(p, q, s, c);
    }
  }

  // ---------------------------------------------------------------- every step, every run

  lemma ClockKeeps(p: Plane, now: real)
    requires Inv(p)
    ensures Inv(p.(clock := now))
  {
    ClockKeepsCalls(p, now);
    GatedAfter(p, p.(clock := now), 0);
  }

  lemma ClockKeepsCalls(p: Plane, now: real)
    requires OpenCalls(p) && Series(p)
    ensures OpenCalls(p.(clock := now)) && Series(p.(clock := now))
  {
    var q := p.(clock := now);
    forall s: nat ensures SeriesAt(q, s) { assert SeriesAt(p, s); }
    forall c ensures c in Open(q.calls) <==> IsOpen(q, c) { assert c in Open(p.calls) <==> IsOpen(p, c); }
  }

  lemma AskLockKeeps(p: Plane, t: nat, now: real)
    requires Inv(p) && At(p, t, Admitted)
    ensures Inv(AskLock(p, t, now))
  {
    PartKeeps(p, t, if p.holder.None? && p.queue == [] then Taken(now) else Enqueued);
  }

  lemma PassGatesKeeps(p: Plane, t: nat, supervisor: Option<bool>, now: real)
    requires Inv(p) && At(p, t, Submitted) && (p.tasks[t].supervised ==> supervisor.Some?)
    ensures Inv(PassGates(p, t, supervisor, now))
  {
    var judged := Judge(p, t, supervisor, now);
    PartKeeps(p, t, Judged(supervisor, now));
    if judged.tasks[t].pc.Done? {
      assert PassGates(p, t, supervisor, now) == judged;
    } else {
      assert At(judged, t, Admitted);
      if ActionOf(p, t).preempt {
        assert PassGates(p, t, supervisor, now) == Do(judged, t, StopBegins);
        PartKeeps(judged, t, StopBegins);
      } else {
        assert PassGates(p, t, supervisor, now) == AskLock(judged, t, now);
        AskLockKeeps(judged, t, now);
      }
    }
  }

  lemma SubmitKeeps(p: Plane, t: nat, actions: seq<Action>, supervised: bool, now: real)
    requires Inv(p) && Enabled(p, Submit(t, actions, supervised, now))
    ensures Inv(Next(p, Submit(t, actions, supervised, now)))
  {
    var p1 := p.(clock := now);
    ClockKeeps(p, now);
    PartKeeps(p1, t, Arrived(actions, supervised));
    if !supervised && actions != [] { PassGatesKeeps(Arrive(p1, t, actions, supervised), t, None, now); }
  }

  lemma StopDoneKeeps(p: Plane, t: nat, ending: Ending, now: real)
    requires Inv(p) && Enabled(p, StopDone(t, ending, now))
    ensures Inv(Next(p, StopDone(t, ending, now)))
  {
    var p1 := p.(clock := now);
    ClockKeeps(p, now);
    PartKeeps(p1, t, StopEnds(ending));
    if ending.Status? { AskLockKeeps(EndStop(p1, t, ending), t, now); }
  }

  lemma AcquireKeeps(p: Plane, t: nat, now: real)
    requires Inv(p) && Enabled(p, Acquire(t, now))
    ensures Inv(Next(p, Acquire(t, now)))
  {
    var p1 := p.(clock := now);
    ClockKeeps(p, now);
    PartKeeps(p1, t, Dequeued);
    PartKeeps(Dequeue(p1, t), t, Taken(now));
  }

  lemma FinishKeeps(p: Plane, t: nat, ending: Ending, now: real)
    requires Inv(p) && Enabled(p, Finish(t, ending, now))
    ensures Inv(Next(p, Finish(t, ending, now)))
  {
    var p1 := p.(clock := now);
    ClockKeeps(p, now);
    PartKeeps(p1, t, Released(ending, now));
    var q := Release(p1, t, ending, now);
    if q.tasks[t].pc.Submitted? { PassGatesKeeps(q, t, None, now); }
  }

  lemma GateKeeps(p: Plane, t: nat, safe: bool, now: real)
    requires Inv(p) && Enabled(p, Gate(t, safe, now))
    ensures Inv(Next(p, Gate(t, safe, now)))
  {
    ClockKeeps(p, now);
    PassGatesKeeps(p.(clock := now), t, Some(safe), now);
  }

  lemma StepKeeps(p: Plane, step: Step)
    requires Inv(p) && Enabled(p, step)
    ensures Inv(Next(p, step))
  {
    match step {
      case Submit(t, actions, supervised, now) => SubmitKeeps(p, t, actions, supervised, now);
      case Gate(t, safe, now) => GateKeeps(p, t, safe, now);
      case StopDone(t, ending, now) => StopDoneKeeps(p, t, ending, now);
      case Acquire(t, now) => AcquireKeeps(p, t, now);
      case Finish(t, ending, now) => FinishKeeps(p, t, ending, now);
      case Abandon(t) => PartKeeps(p, t, Abandoned);
      case EmergencyBegins(n) => EmergencyKeeps(p, Next(p, step), Begin(Emergency(n)));
      case EmergencyEnds(n, ending) => EmergencyKeeps(p, Next(p, step), End(Emergency(n), ending));
    }
  }

  lemma StepKeepsSize(p: Plane, step: Step)
    requires Enabled(p, step)
    ensures Next(p, step).size == p.size
  {
  }

  lemma InitialInv(size: nat, clock: real)
    requires size >= 1
    ensures Inv(Initial(size, clock))
  {
    var p := Initial(size, clock);
    assert forall s: nat :: SeriesAt(p, s);
  }

  lemma {:induction false} RunKeeps(p: Plane, steps: seq<Step>, q: Plane)
    requires Inv(p) && Run(p, steps, q)
    ensures Inv(q) && q.size == p.size
    decreases |steps|
  {
    if steps != [] {
      StepKeeps(p, steps[0]);
      StepKeepsSize(p, steps[0]);
      RunKeeps(Next(p, steps[0]), steps[1..], q);
    }
  }

  // In every interleaving: of the driver calls open at one moment at most one is buffered,
  // so every other is a stop; it is that of the call holding the lock, whose action is the
  // current one; every action that reached the driver was in time, and safe where the
  // supervisor was asked, when it was let through; the buffer is the last entries made,
  // the watchdog speaks of the last buffered call that ended, and the preemptions are the
  // preempting stops that returned.
  lemma EveryRun(size: nat, clock: real, steps: seq<Step>, p: Plane)
    requires size >= 1 && Run(Initial(size, clock), steps, p)
    ensures OpenCalls(p)
    ensures forall c :: c in Open(p.calls) && c.Buffered? ==>
              p.holder == Some(c.task) && p.core.current == Some(c.action.id)
    ensures p.holder.Some? <==> p.core.current.Some?
    ensures p.holder.Some? ==> exists c :: c in Open(p.calls) && c.Buffered?
    ensures forall k :: 0 <= k < |p.calls| && p.calls[k].Begin? && p.calls[k].who.Buffered? ==> PassedCall(p, p.calls[k].who)
    ensures Recorded(p) && |p.core.buffer| <= size
  {
    InitialInv(size, clock);
    RunKeeps(Initial(size, clock), steps, p);
    forall c | c in Open(p.calls) && c.Buffered? ensures p.holder == Some(c.task) && p.core.current == Some(c.action.id) {
      assert IsOpen(p, c);
    }
    if p.holder.Some? {
      var t := p.holder.value;
      assert IsOpen(p, Buffered(t, p.tasks[t].index, ActionOf(p, t)));
    }
  }

  // In every run the driver calls of one task, single action or policy result, are a
  // prefix of its actions in order, each ended before the next began, and nothing follows
  // a failure, an exception or a cancellation.
  lemma CallsOfTask(size: nat, clock: real, steps: seq<Step>, p: Plane, t: nat)
    requires size >= 1 && Run(Initial(size, clock), steps, p)
    ensures t in p.tasks ==> InOrder(Mine(p.calls, t), t, p.tasks[t].actions)
    ensures t !in p.tasks ==> Mine(p.calls, t) == []
  {
    InitialInv(size, clock);
    RunKeeps(Initial(size, clock), steps, p);
    assert SeriesAt(p, t);
  }

  // An emergency stop begins at once in every reachable state and disturbs nothing: while
  // the lock is held, its driver call and the holder's are open together.
  lemma EmergencyOverlaps(size: nat, clock: real, steps: seq<Step>, p: Plane, n: nat)
    requires size >= 1 && Run(Initial(size, clock), steps, p) && n !in p.emergencies
    ensures var q := Next(p, EmergencyBegins(n));
      && Open(q.calls) == Open(p.calls) + {Emergency(n)}
      && Emergency(n) !in Open(p.calls)
      && (p.holder.Some? ==> exists c :: c in Open(q.calls) && c.Buffered? && c.task == p.holder.value)
      && q.tasks == p.tasks && q.holder == p.holder && q.queue == p.queue && q.core == p.core
      && forall ending :: Enabled(q, EmergencyEnds(n, ending))
  {
    EveryRun(size, clock, steps, p);
    EmergencyStep(p, n);
  }

  lemma EmergencyStep(p: Plane, n: nat)
    requires OpenCalls(p) && n !in p.emergencies
    ensures var q := Next(p, EmergencyBegins(n));
      && q == p.(emergencies := p.emergencies + {n}, calls := p.calls + [Begin(Emergency(n))])
      && Open(q.calls) == Open(p.calls) + {Emergency(n)} && Emergency(n) !in Open(p.calls)
  {
    OpenSnoc(p.calls, Begin(Emergency(n)));
    assert !IsOpen(p, Emergency(n));
  }

  // ---------------------------------------------------------------- first come, first served

  // Both wait for the lock, s longer than t.
  ghost predicate AheadOf(queue: seq<nat>, s: nat, t: nat) {
    exists i, j :: 0 <= i < j < |queue| && queue[i] == s && queue[j] == t
  }

  // Whoever starts to wait stands behind all who wait already.
  lemma NewcomerWaitsLast(p: Plane, step: Step, s: nat, t: nat)
    requires Enabled(p, step) && s in p.queue && s in Next(p, step).queue
    requires t !in p.queue && t in Next(p, step).queue
    ensures AheadOf(Next(p, step).queue, s, t)
  {
    QueueStep(p, step);
    var q := Next(p, step).queue;
    if step.Abandon? { WithoutMembers(p.queue, step.task); }
    assert t !in p.queue[1..];
    assert q == p.queue + [t];
    var i :| 0 <= i < |p.queue| && p.queue[i] == s;
    assert q[i] == s && q[|p.queue|] == t;
  }

  // What one step does to the queue.
  lemma QueueStep(p: Plane, step: Step)
    requires Enabled(p, step)
    ensures var q := Next(p, step).queue;
      if step.Acquire? then q == p.queue[1..] && p.queue[0] == step.task
      else if step.Abandon? then q == Without(p.queue, step.task)
      else q == p.queue || (!step.EmergencyBegins? && !step.EmergencyEnds? && q == p.queue + [step.task])
  {
    match step {
      case Submit(t, actions, supervised, now) =>
        if !supervised && actions != [] { GatesQueue(Arrive(p.(clock := now), t, actions, supervised), t, None, now); }
      case Gate(t, safe, now) => GatesQueue(p.(clock := now), t, Some(safe), now);
      case Finish(t, ending, now) =>
        var q := Release(p.(clock := now), t, ending, now);
        if q.tasks[t].pc.Submitted? { GatesQueue(q, t, None, now); }
      case _ =>
    }
  }

  lemma GatesQueue(p: Plane, t: nat, supervisor: Option<bool>, now: real)
    requires At(p, t, Submitted)
    ensures var q := PassGates(p, t, supervisor, now).queue; q == p.queue || q == p.queue + [t]
  {
  }

  lemma {:induction false} WithoutKeepsOrder(queue: seq<nat>, x: nat, s: nat, t: nat)
    requires AheadOf(queue, s, t) && x != s && x != t
    ensures AheadOf(Without(queue, x), s, t)
  {
    var rest := Without(queue[1..], x);
    var i, j :| 0 <= i < j < |queue| && queue[i] == s && queue[j] == t;
    if i > 0 {
      assert queue[1..][i - 1] == s && queue[1..][j - 1] == t;
      WithoutKeepsOrder(queue[1..], x, s, t);
      var k, l :| 0 <= k < l < |rest| && rest[k] == s && rest[l] == t;
      if queue[0] == x {
        assert Without(queue, x) == [] + rest == rest;
      } else {
        assert Without(queue, x)[k + 1] == s && Without(queue, x)[l + 1] == t;
      }
    } else {
      WithoutMembers(queue[1..], x);
      assert queue[1..][j - 1] == t && t in rest;
      var l :| 0 <= l < |rest| && rest[l] == t;
      assert Without(queue, x)[0] == s && Without(queue, x)[l + 1] == t;
    }
  }

  predicate Leaves(step: Step, s: nat) { (step.Acquire? || step.Abandon?) && step.task == s }

  // As long as s stays and t does not give up, s stays ahead of t.
  lemma StaysAhead(p: Plane, step: Step, s: nat, t: nat)
    requires Inv(p) && Enabled(p, step) && AheadOf(p.queue, s, t) && !Leaves(step, s) && step != Abandon(t)
    ensures AheadOf(Next(p, step).queue, s, t) && !Leaves(step, t)
  {
    QueueStep(p, step);
    var i, j :| 0 <= i < j < |p.queue| && p.queue[i] == s && p.queue[j] == t;
    var q := Next(p, step).queue;
    if step.Acquire? {
      assert p.queue[0] == step.task != s;
      assert i > 0 && q[i - 1] == s && q[j - 1] == t;
    } else if step.Abandon? {
      WithoutKeepsOrder(p.queue, step.task, s, t);
    } else {
      assert q[i] == s && q[j] == t;
    }
  }

  // In no run does a waiting task that has not given up get the lock before one that
  // waited longer got it or gave up.
  lemma {:induction false} FirstComeFirstServed(p: Plane, steps: seq<Step>, q: Plane, s: nat, t: nat, k: nat)
    requires Inv(p) && Run(p, steps, q) && AheadOf(p.queue, s, t)
    requires k < |steps| && steps[k].Acquire? && steps[k].task == t
    requires forall j :: 0 <= j < k ==> steps[j] != Abandon(t)
    ensures exists j :: 0 <= j < k && Leaves(steps[j], s)
    decreases k
  {
    AheadDiffer(p, s, t);
    if Leaves(steps[0], s) {
      assert k > 0;
    } else {
      StaysAhead(p, steps[0], s, t);
      StepKeeps(p, steps[0]);
      RestOf(steps, k, t);
      FirstComeFirstServed(Next(p, steps[0]), steps[1..], q, s, t, k - 1);
      LeavesLater(steps, k, s);
    }
  }

  lemma RestOf(steps: seq<Step>, k: nat, t: nat)
    requires 0 < k < |steps| && forall j :: 0 <= j < k ==> steps[j] != Abandon(t)
    ensures steps[1..][k - 1] == steps[k] && forall j :: 0 <= j < k - 1 ==> steps[1..][j] != Abandon(t)
  {
  }

  lemma LeavesLater(steps: seq<Step>, k: nat, s: nat)
    requires 0 < k < |steps| && exists j :: 0 <= j < k - 1 && Leaves(steps[1..][j], s)
    ensures exists j :: 0 <= j < k && Leaves(steps[j], s)
  {
    var j :| 0 <= j < k - 1 && Leaves(steps[1..][j], s);
    assert Leaves(steps[j + 1], s);
  }

  lemma AheadDiffer(p: Plane, s: nat, t: nat)
    requires Queued(p) && AheadOf(p.queue, s, t)
    ensures s != t
  {
  }

  // ---------------------------------------------------------------- deadlines

  // Action i of the task took the lock at `start`, and never takes it again.
  predicate StartedAt(p: Plane, t: nat, i: nat, start: real) {
    && t in p.tasks
    && (p.tasks[t].index > i || (p.tasks[t].index == i && (p.tasks[t].pc == Driving(start) || p.tasks[t].pc.Done?)))
  }

  predicate Elsewhere(step: Step, t: nat) { step.EmergencyBegins? || step.EmergencyEnds? || step.task != t }

  lemma StartedStays(p: Plane, t: nat, i: nat, start: real, step: Step)
    requires StartedAt(p, t, i, start) && Enabled(p, step)
    ensures StartedAt(Next(p, step), t, i, start)
  {
    if Elsewhere(step, t) {
      OthersStay(p, step, t);
    } else if step.Gate? {
      GatesKeepIndex(p.(clock := step.now), t, Some(step.safe), step.now);
    } else if step.Finish? {
      var q := Release(p.(clock := step.now), t, step.ending, step.now);
      if q.tasks[t].pc.Submitted? { GatesKeepIndex(q, t, None, step.now); }
    }
  }

  lemma GatesKeepIndex(p: Plane, t: nat, supervisor: Option<bool>, now: real)
    requires At(p, t, Submitted)
    ensures var q := PassGates(p, t, supervisor, now); t in q.tasks && q.tasks[t].index == p.tasks[t].index
  {
  }

  lemma OthersStay(p: Plane, step: Step, t: nat)
    requires Enabled(p, step) && t in p.tasks && Elsewhere(step, t)
    ensures t in Next(p, step).tasks && Next(p, step).tasks[t] == p.tasks[t]
  {
    match step {
      case Submit(s, actions, supervised, now) =>
        if !supervised && actions != [] { GatesMoveOnly(Arrive(p.(clock := now), s, actions, supervised), s, None, now, t); }
      case Gate(s, safe, now) => GatesMoveOnly(p.(clock := now), s, Some(safe), now, t);
      case Finish(s, ending, now) =>
        var q := Release(p.(clock := now), s, ending, now);
        if q.tasks[s].pc.Submitted? { GatesMoveOnly(q, s, None, now, t); }
      case _ =>
    }
  }

  lemma GatesMoveOnly(p: Plane, s: nat, supervisor: Option<bool>, now: real, t: nat)
    requires At(p, s, Submitted) && t in p.tasks && t != s
    ensures var q := PassGates(p, s, supervisor, now); t in q.tasks && q.tasks[t] == p.tasks[t]
  {
  }

  lemma {:induction false} StartedRun(p: Plane, t: nat, i: nat, start: real, steps: seq<Step>, q: Plane)
    requires StartedAt(p, t, i, start) && Run(p, steps, q)
    ensures StartedAt(q, t, i, start)
    decreases |steps|
  {
    if steps != [] {
      StartedStays(p, t, i, start, steps[0]);
      StartedRun(Next(p, steps[0]), t, i, start, steps[1..], q);
    }
  }

  // Action i of the task is at the driver, and its deadline had passed when it got there.
  predicate DrivesLate(p: Plane, t: nat, i: nat, a: Action) {
    t in p.tasks && p.tasks[t].index == i && p.tasks[t].pc.Driving? && PastDue(a, p.tasks[t].pc.startedAt)
  }

  // Whoever waits can come to hold the lock at any later time: those before it in the
  // queue may be cancelled, and the holder may fail.
  lemma {:induction false} WaiterGetsLock(p: Plane, t: nat, late: real) returns (steps: seq<Step>, q: Plane)
    requires Inv(p) && At(p, t, Waiting) && late >= p.clock
    ensures Run(p, steps, q) && t in q.tasks && q.tasks[t] == p.tasks[t].(pc := Driving(late))
    decreases |p.queue|, if p.holder.Some? then 1 else 0
  {
    assert t in p.queue;
    var first := p.queue[0];
    if first == t && p.holder.None? {
      q := Next(p, Acquire(t, late));
      steps := RunOne(p, Acquire(t, late));
    } else {
      var step: Step;
      if first != t {
        step := Abandon(first);
        HeadAbandons(p, t);
      } else {
        step := Finish(p.holder.value, Raised, late);
        HolderFails(p, t, late);
      }
      StepKeeps(p, step);
      steps, q := WaiterGetsLock(Next(p, step), t, late);
      steps := RunMore(p, step, steps, q);
    }
  }

  lemma RunOne(p: Plane, step: Step) returns (steps: seq<Step>)
    requires Enabled(p, step)
    ensures Run(p, steps, Next(p, step))
  {
    steps := [step];
    assert steps[1..] == [] && Run(Next(p, step), [], Next(p, step));
  }

  lemma RunMore(p: Plane, step: Step, rest: seq<Step>, q: Plane) returns (steps: seq<Step>)
    requires Enabled(p, step) && Run(Next(p, step), rest, q)
    ensures Run(p, steps, q)
  {
    steps := [step] + rest;
    assert steps[1..] == rest;
  }

  lemma HeadAbandons(p: Plane, t: nat)
    requires Queued(p) && Shaped(p) && At(p, t, Waiting) && p.queue != [] && p.queue[0] != t
    ensures Enabled(p, Abandon(p.queue[0]))
    ensures var q := Next(p, Abandon(p.queue[0]));
      At(q, t, Waiting) && q.tasks[t] == p.tasks[t] && |q.queue| < |p.queue| && q.clock == p.clock
  {
    assert p.queue[0] in p.queue;
    HeadLeaves(p.queue);
  }

  lemma HolderFails(p: Plane, t: nat, late: real)
    requires Locked(p) && At(p, t, Waiting) && p.holder.Some? && late >= p.clock
    ensures Enabled(p, Finish(p.holder.value, Raised, late))
    ensures var q := Next(p, Finish(p.holder.value, Raised, late));
      At(q, t, Waiting) && q.tasks[t] == p.tasks[t] && q.queue == p.queue && q.holder.None? && q.clock == late
  {
  }

  lemma HeadLeaves<T>(s: seq<T>)
    requires s != [] && Distinct(s)
    ensures |Without(s, s[0])| < |s|
  {
    WithoutAbsent(s[1..], s[0]);
  }

  // The step judges an action: the first of a policy result when it is submitted, the
  // next one when the driver is done with the one before, and a supervised one when it
  // was found safe.
  predicate Judges(p: Plane, step: Step)
    requires Enabled(p, step)
  {
    match step
    case Submit(_, actions, supervised, _) => !supervised && actions != []
    case Gate(_, safe, _) => safe
    case Finish(t, ending, _) => GoesOn(ending) && p.tasks[t].index + 1 < |p.tasks[t].actions|
    case _ => false
  }

  // The plane of that step when the action stands before its gates.
  function AtGate(p: Plane, step: Step): Plane
    requires Enabled(p, step) && Judges(p, step)
  {
    match step
    case Submit(t, actions, supervised, now) => Arrive(p.(clock := now), t, actions, supervised)
    case Gate(t, _, now) => p.(clock := now)
    case Finish(t, ending, now) => Release(p.(clock := now), t, ending, now)
    case _ => p
  }

  // The action the step judges, and its place in its task.
  function JudgedAction(p: Plane, step: Step): Action
    requires Enabled(p, step) && Judges(p, step)
  {
    ActionOf(AtGate(p, step), step.task)
  }

  function JudgedIndex(p: Plane, step: Step): nat
    requires Enabled(p, step) && Judges(p, step)
  {
    AtGate(p, step).tasks[step.task].index
  }

  lemma JudgingStep(p: Plane, step: Step)
    requires Inv(p) && Enabled(p, step) && Judges(p, step)
    ensures var g := AtGate(p, step);
      && Inv(g) && At(g, step.task, Submitted) && g.clock == step.now
      && (g.tasks[step.task].supervised ==> step.Gate?)
      && Next(p, step) == PassGates(g, step.task, if step.Gate? then Some(true) else None, step.now)
  {
    ClockKeeps(p, step.now);
    var p1 := p.(clock := step.now);
    match step {
      case Submit(t, actions, supervised, now) => PartKeeps(p1, t, Arrived(actions, supervised));
      case Finish(t, ending, now) => PartKeeps(p1, t, Released(ending, now));
      case _ =>
    }
  }

  // Something makes the action pause between its gates and the driver: its own preempting
  // stop, a held lock, or others waiting for the lock.
  predicate Pauses(g: Plane, t: nat)
    requires At(g, t, Submitted)
  {
    ActionOf(g, t).preempt || g.holder.Some? || g.queue != []
  }

  // After the step that judges it, the action reaches the driver too late in some run.
  ghost predicate CanDriveLate(p: Plane, step: Step)
    requires Enabled(p, step) && Judges(p, step)
  {
    exists more, q :: Run(Next(p, step), more, q)
                      && DrivesLate(q, step.task, JudgedIndex(p, step), JudgedAction(p, step))
  }

  // In every reachable state, an action that passes its gates in time can still reach the
  // driver after its deadline exactly when it has a deadline and pauses in between.
  lemma LateStartIff(size: nat, clock: real, steps: seq<Step>, p: Plane, step: Step)
    requires size >= 1 && Run(Initial(size, clock), steps, p)
    requires Enabled(p, step) && Judges(p, step) && !PastDue(JudgedAction(p, step), step.now)
    ensures At(AtGate(p, step), step.task, Submitted)
    ensures CanDriveLate(p, step) <==>
      HasDue(JudgedAction(p, step)) && Pauses(AtGate(p, step), step.task)
  {
    InitialInv(size, clock);
    RunKeeps(Initial(size, clock), steps, p);
    JudgingStep(p, step);
    var g, t, i, a, verdict := AtGate(p, step), step.task, JudgedIndex(p, step), JudgedAction(p, step),
                               if step.Gate? then Some(true) else None;
    if CanDriveLate(p, step) {
      var more, q :| Run(Next(p, step), more, q) && DrivesLate(q, t, i, a);
      LateNeedsPause(g, t, verdict, step.now, more, q);
    }
    if HasDue(a) && Pauses(g, t) {
      var more, q := StartsLate(g, t, verdict, step.now);
      assert Run(Next(p, step), more, q) && DrivesLate(q, t, i, a);
    }
  }

  // In every reachable state an action that is judged, and not found unsafe, is refused
  // exactly when its deadline, by the first of its fields that gives one, is over.  No
  // driver call begins for a refused action.
  lemma RefusedIff(size: nat, clock: real, steps: seq<Step>, p: Plane, step: Step)
    requires size >= 1 && Run(Initial(size, clock), steps, p) && Enabled(p, step) && Judges(p, step)
    ensures step.task in Next(p, step).tasks
    ensures var a, now := JudgedAction(p, step), step.now;
      Next(p, step).tasks[step.task].pc.Done? <==>
        || (a.deadlineAt.Some? && now > a.deadlineAt.value)
        || (a.deadlineAt.None? && a.deadlineSec.Some? && now > a.timestamp + a.deadlineSec.value)
        || (a.deadlineAt.None? && a.deadlineSec.None? && a.dt.Some? && a.horizon.Some?
            && now > a.timestamp + a.dt.value * a.horizon.value)
    ensures Next(p, step).tasks[step.task].pc.Done? ==> Next(p, step).calls == AtGate(p, step).calls
  {
    InitialInv(size, clock);
    RunKeeps(Initial(size, clock), steps, p);
    StepDecides(p, step);
  }

  lemma StepDecides(p: Plane, step: Step)
    requires Inv(p) && Enabled(p, step) && Judges(p, step)
    ensures step.task in Next(p, step).tasks
    ensures Next(p, step).tasks[step.task].pc.Done? <==> PastDue(JudgedAction(p, step), step.now)
    ensures Next(p, step).tasks[step.task].pc.Done? ==> Next(p, step).calls == AtGate(p, step).calls
  {
    JudgingStep(p, step);
    GateDecides(AtGate(p, step), step.task, if step.Gate? then Some(true) else None, step.now);
  }

  // An action that the supervisor found unsafe goes no further.
  lemma UnsafeIsRefused(p: Plane, t: nat, now: real)
    requires Enabled(p, Gate(t, false, now))
    ensures var q := Next(p, Gate(t, false, now));
      q.tasks == p.tasks[t := p.tasks[t].(pc := Done)] && q.calls == p.calls && q.holder == p.holder && q.queue == p.queue
  {
  }

  lemma GateDecides(g: Plane, t: nat, verdict: Option<bool>, now: real)
    requires At(g, t, Submitted) && verdict != Some(false)
    ensures var q := PassGates(g, t, verdict, now);
      && t in q.tasks && (q.tasks[t].pc.Done? <==> PastDue(ActionOf(g, t), now))
      && (q.tasks[t].pc.Done? ==> q.calls == g.calls)
  {
    DueIsDeadline(ActionOf(g, t), now);
    if !PastDue(ActionOf(g, t), now) { GateOutcome(g, t, verdict, now); }
  }

  // Which action a step judges: the first of a submitted policy result, the one that was
  // waiting for the supervisor, or the one behind an action that did not fail.
  lemma JudgedIs(p: Plane, step: Step)
    requires Enabled(p, step)
    ensures step.Submit? ==> (Judges(p, step) <==> !step.supervised && step.actions != [])
    ensures step.Submit? && Judges(p, step) ==> JudgedAction(p, step) == step.actions[0]
    ensures step.Gate? && step.safe ==>
      Judges(p, step) && JudgedAction(p, step) == p.tasks[step.task].actions[p.tasks[step.task].index]
    ensures step.Finish? ==>
      var k := p.tasks[step.task];
      && (Judges(p, step) <==> NoFailure(step.ending) && k.index + 1 < |k.actions|)
      && (Judges(p, step) ==> JudgedAction(p, step) == k.actions[k.index + 1])
      && (!Judges(p, step) ==> Next(p, step).tasks[step.task] == k.(pc := Done))
    ensures !step.Submit? && !step.Gate? && !step.Finish? ==> !Judges(p, step)
  {
  }

  // A new entry carries the moment at which its action took the lock.
  lemma EntryIsTimed(p: Plane, step: Step)
    requires Enabled(p, step) && Next(p, step).entered != p.entered
    ensures var q := Next(p, step);
      && (step.Submit? || step.Gate? || step.StopDone? || step.Acquire? || step.Finish?)
      && |q.entered| == |p.entered| + 1 && p.entered == q.entered[..|p.entered|]
      && q.entered[|p.entered|].submittedAt == step.now
      && step.task in q.tasks && q.tasks[step.task].pc == Driving(step.now)
  {
    match step {
      case Submit(t, actions, supervised, now) =>
        if !supervised && actions != [] { GatesEnter(Arrive(p.(clock := now), t, actions, supervised), t, None, now); }
      case Gate(t, safe, now) => GatesEnter(p.(clock := now), t, Some(safe), now);
      case Finish(t, ending, now) =>
        var q := Release(p.(clock := now), t, ending, now);
        if q.tasks[t].pc.Submitted? { GatesEnter(q, t, None, now); }
      case _ =>
    }
  }

  lemma GatesEnter(p: Plane, t: nat, supervisor: Option<bool>, now: real)
    requires At(p, t, Submitted)
    ensures var q := PassGates(p, t, supervisor, now);
      && t in q.tasks
      && (q.entered == p.entered || (q.entered == p.entered + [EntryOf(ActionOf(p, t), now)] && q.tasks[t].pc == Driving(now)))
  {
  }

  // When a driver call ends the watchdog tells whose it was, how long it took, whether it
  // ended past its deadline, and how it ended.
  lemma WatchdogAtEnd(p: Plane, t: nat, ending: Ending, now: real)
    requires Enabled(p, Finish(t, ending, now))
    ensures var a, w := ActionOf(p, t), Next(p, Finish(t, ending, now)).core.watchdog;
      && w.Some? && w.value.id == a.id && w.value.skill == a.skill
      && w.value.duration == now - p.tasks[t].pc.startedAt
      && DueAt(a, w.value.deadlineAt) && (w.value.missed <==> PastDue(a, now))
      && (w.value.success <==> ending == Status(Some(true))) && (w.value.cancelled <==> ending.Cancelled?)
  {
    DueIsDeadline(ActionOf(p, t), now);
    var q := Release(p.(clock := now), t, ending, now);
    if q.tasks[t].pc.Submitted? { GatesKeepWatchdog(q, t, None, now); }
  }

  lemma GatesKeepWatchdog(p: Plane, t: nat, supervisor: Option<bool>, now: real)
    requires At(p, t, Submitted)
    ensures PassGates(p, t, supervisor, now).core.watchdog == p.core.watchdog
  {
  }

  lemma LateNeedsPause(g: Plane, t: nat, verdict: Option<bool>, now: real, more: seq<Step>, q: Plane)
    requires At(g, t, Submitted) && verdict != Some(false) && !PastDue(ActionOf(g, t), now)
    requires Run(PassGates(g, t, verdict, now), more, q) && DrivesLate(q, t, g.tasks[t].index, ActionOf(g, t))
    ensures HasDue(ActionOf(g, t)) && Pauses(g, t)
  {
    GateOutcome(g, t, verdict, now);
    if !Pauses(g, t) {
      StartedRun(PassGates(g, t, verdict, now), t, g.tasks[t].index, now, more, q);
    }
  }

  // Where an action stands after passing its gates in time.
  lemma GateOutcome(g: Plane, t: nat, verdict: Option<bool>, now: real)
    requires At(g, t, Submitted) && verdict != Some(false) && !PastDue(ActionOf(g, t), now)
    ensures var q := PassGates(g, t, verdict, now);
      && q.clock == g.clock && t in q.tasks && q.tasks[t] == g.tasks[t].(pc := q.tasks[t].pc)
      && (if ActionOf(g, t).preempt then q.tasks[t].pc.Stopping?
          else if g.holder.Some? || g.queue != [] then q.tasks[t].pc.Waiting?
          else q.tasks[t].pc == Driving(now))
  {
  }

  lemma StartsLate(g: Plane, t: nat, verdict: Option<bool>, now: real) returns (more: seq<Step>, q: Plane)
    requires Inv(g) && At(g, t, Submitted) && verdict != Some(false) && (g.tasks[t].supervised ==> verdict.Some?)
    requires !PastDue(ActionOf(g, t), now) && HasDue(ActionOf(g, t)) && Pauses(g, t)
    ensures Run(PassGates(g, t, verdict, now), more, q) && DrivesLate(q, t, g.tasks[t].index, ActionOf(g, t))
  {
    GateOutcome(g, t, verdict, now);
    PassGatesKeeps(g, t, verdict, now);
    more, q := PausedStartsLate(PassGates(g, t, verdict, now), t);
  }

  lemma LateTime(a: Action, clock: real) returns (late: real)
    requires HasDue(a)
    ensures late >= clock && PastDue(a, late)
  {
    var d := Deadline(a).value;
    late := if d >= clock then d + 1.0 else clock;
    DueIsDeadline(a, late);
  }

  lemma PausedStartsLate(p: Plane, t: nat) returns (steps: seq<Step>, q: Plane)
    requires Inv(p) && (At(p, t, Stopping) || At(p, t, Waiting)) && HasDue(ActionOf(p, t))
    ensures Run(p, steps, q) && DrivesLate(q, t, p.tasks[t].index, ActionOf(p, t))
  {
    var late := LateTime(ActionOf(p, t), p.clock);
    if At(p, t, Waiting) {
      steps, q := WaiterGetsLock(p, t, late);
    } else {
      var step := StopDone(t, Status(None), late);
      StepKeeps(p, step);
      StopOutcome(p, t, late);
      if Next(p, step).tasks[t].pc.Waiting? {
        steps, q := WaiterGetsLock(Next(p, step), t, late);
        steps := RunMore(p, step, steps, q);
      } else {
        q := Next(p, step);
        steps := RunOne(p, step);
      }
    }
  }

  // Where a preempting action stands after its stop returned.
  lemma StopOutcome(p: Plane, t: nat, late: real)
    requires At(p, t, Stopping) && late >= p.clock
    ensures var q := Next(p, StopDone(t, Status(None), late));
      && q.clock == late && t in q.tasks && q.tasks[t] == p.tasks[t].(pc := q.tasks[t].pc)
      && (q.tasks[t].pc.Waiting? || q.tasks[t].pc == Driving(late))
  {
  }

  // ---------------------------------------------------------------- running through

  // The calls of a task from the end of action i on, when all of its actions succeed.
  function Onwards(t: nat, actions: seq<Action>, i: nat): seq<DriverCall>
    requires i < |actions|
    decreases |actions| - i
  {
    var ended := End(Buffered(t, i, actions[i]), Status(Some(true)));
    if i + 1 == |actions| then [ended]
    else [ended, Begin(Buffered(t, i + 1, actions[i + 1]))] + Onwards(t, actions, i + 1)
  }

  // Task t drives action i, and nobody waits for the lock.
  ghost predicate DrivesAlone(p: Plane, t: nat, i: nat, now: real) {
    && p.clock == now && p.queue == [] && p.holder == Some(t) && t in p.tasks
    && p.tasks[t].pc == Driving(now) && p.tasks[t].index == i < |p.tasks[t].actions|
  }

  // One more success: the next action, in time and without a stop of its own, starts at once.
  lemma DrivesOn(p: Plane, t: nat, i: nat, now: real)
    requires DrivesAlone(p, t, i, now)
    requires forall k :: 0 <= k < |p.tasks[t].actions| ==> !p.tasks[t].actions[k].preempt && !PastDue(p.tasks[t].actions[k], now)
    ensures Enabled(p, Finish(t, Status(Some(true)), now))
    ensures var q, k := Next(p, Finish(t, Status(Some(true)), now)), p.tasks[t];
      var ended := End(Buffered(t, i, k.actions[i]), Status(Some(true)));
      && t in q.tasks && q.tasks[t].actions == k.actions
      && if i + 1 == |k.actions| then q.calls == p.calls + [ended] && q.tasks[t].pc.Done? && q.holder.None?
         else DrivesAlone(q, t, i + 1, now) && q.calls == p.calls + [ended, Begin(Buffered(t, i + 1, k.actions[i + 1]))]
  {
    var k := p.tasks[t];
    if i + 1 < |k.actions| {
      var g := Release(p.(clock := now), t, Status(Some(true)), now);
      DueIsDeadline(k.actions[i + 1], now);
      GateOutcome(g, t, None, now);
    }
  }

  lemma {:induction false} DrivesToTheEnd(p: Plane, t: nat, i: nat, now: real) returns (steps: seq<Step>, q: Plane)
    requires DrivesAlone(p, t, i, now)
    requires forall k :: 0 <= k < |p.tasks[t].actions| ==> !p.tasks[t].actions[k].preempt && !PastDue(p.tasks[t].actions[k], now)
    ensures Run(p, steps, q) && t in q.tasks && q.tasks[t].pc.Done? && q.holder.None?
    ensures q.calls == p.calls + Onwards(t, p.tasks[t].actions, i)
    decreases |p.tasks[t].actions| - i
  {
    var step, actions := Finish(t, Status(Some(true)), now), p.tasks[t].actions;
    DrivesOn(p, t, i, now);
    var next := Next(p, step);
    if i + 1 == |actions| {
      q := next;
      steps := RunOne(p, step);
    } else {
      var rest: seq<Step>;
      rest, q := DrivesToTheEnd(next, t, i + 1, now);
      steps := RunMore(p, step, rest, q);
      Assoc(p.calls, [End(Buffered(t, i, actions[i]), Status(Some(true))), Begin(Buffered(t, i + 1, actions[i + 1]))],
            Onwards(t, actions, i + 1));
    }
  }

  // Where the lock is free and nobody waits, a policy result whose actions are in time and
  // ask for no stop can run through: the driver sees every action, in order, and nothing else.
  lemma PolicyCanRunThrough(p: Plane, t: nat, actions: seq<Action>, now: real) returns (steps: seq<Step>, q: Plane)
    requires p.holder.None? && p.queue == [] && t !in p.tasks && now >= p.clock && actions != []
    requires forall k :: 0 <= k < |actions| ==> !actions[k].preempt && !PastDue(actions[k], now)
    ensures Run(p, steps, q) && t in q.tasks && q.tasks[t].pc.Done? && q.holder.None?
    ensures q.calls == p.calls + [Begin(Buffered(t, 0, actions[0]))] + Onwards(t, actions, 0)
  {
    var step := Submit(t, actions, false, now);
    var g := Arrive(p.(clock := now), t, actions, false);
    DueIsDeadline(actions[0], now);
    GateOutcome(g, t, None, now);
    var next := Next(p, step);
    assert DrivesAlone(next, t, 0, now) && next.calls == p.calls + [Begin(Buffered(t, 0, actions[0]))];
    var rest: seq<Step>;
    rest, q := DrivesToTheEnd(next, t, 0, now);
    steps := RunMore(p, step, rest, q);
  }

  // So can a supervised action, once it was found safe.
  lemma SupervisedCanRun(p: Plane, t: nat, a: Action, now: real) returns (steps: seq<Step>, q: Plane)
    requires p.holder.None? && p.queue == [] && t !in p.tasks && now >= p.clock && !a.preempt && !PastDue(a, now)
    ensures Run(p, steps, q) && t in q.tasks && q.tasks[t].pc.Done? && q.holder.None?
    ensures q.calls == p.calls + [Begin(Buffered(t, 0, a))] + [End(Buffered(t, 0, a), Status(Some(true)))]
  {
    var g := Next(p, Submit(t, [a], true, now));
    DueIsDeadline(a, now);
    GateOutcome(g.(clock := now), t, Some(true), now);
    var next := Next(g, Gate(t, true, now));
    assert DrivesAlone(next, t, 0, now) && next.calls == p.calls + [Begin(Buffered(t, 0, a))];
    var rest: seq<Step>;
    rest, q := DrivesToTheEnd(next, t, 0, now);
    steps := RunMore(g, Gate(t, true, now), rest, q);
    steps := RunMore(p, Submit(t, [a], true, now), steps, q);
  }

  // ---------------------------------------------------------------- action chunks

  datatype Item = NotAnObject | Item(hasJoints: bool, gripper: Option<real>, done: bool)

  datatype Command = MoveArm | SetGripper(openingPct: real) | StopMotion

  datatype Mapped = Mapped(command: Command, index: nat, deadlineSec: Option<real>)

  function ItemDeadline(dt: Option<real>, index: nat): Option<real> {
    match dt case Some(d) => Some(d * (index + 1) as real) case None => None
  }

  // The actions of one item: arm, then gripper, then stop.
  function ItemActions(item: Item, index: nat, dt: Option<real>): seq<Mapped> {
    match item
    case NotAnObject => []
    case Item(hasJoints, gripper, done) =>
      var deadline := ItemDeadline(dt, index);
      (if hasJoints then [Mapped(MoveArm, index, deadline)] else [])
      + (if gripper.Some? then [Mapped(SetGripper(Clamp(gripper.value * 100.0, 0.0, 100.0)), index, deadline)] else [])
      + (if done then [Mapped(StopMotion, index, deadline)] else [])
  }

  function ChunkActions(items: seq<Item>, dt: Option<real>): seq<Mapped> {
    if items == [] then []
    else ChunkActions(items[..|items| - 1], dt) + ItemActions(items[|items| - 1], |items| - 1, dt)
  }

  method MapItem(item: Item, index: nat, dt: Option<real>) returns (actions: seq<Mapped>)
    ensures actions == ItemActions(item, index, dt)
  {
    actions := [];
    if item.NotAnObject? { return; }
    var deadline := ItemDeadline(dt, index);
    if item.hasJoints { actions := actions + [Mapped(MoveArm, index, deadline)]; }
    if item.gripper.Some? {
      actions := actions + [Mapped(SetGripper(Clamp(item.gripper.value * 100.0, 0.0, 100.0)), index, deadline)];
    }
    if item.done { actions := actions + [Mapped(StopMotion, index, deadline)]; }
  }

  method MapActionChunk(items: seq<Item>, dt: Option<real>) returns (actions: seq<Mapped>)
    ensures actions == ChunkActions(items, dt)
  {
    actions := [];
    for index := 0 to |items|
      invariant actions == ChunkActions(items[..index], dt)
    {
      assert items[..index + 1][..index] == items[..index];
      var more := MapItem(items[index], index, dt);
      actions := actions + more;
    }
    assert items[..|items|] == items;
  }

  // The share `g` of the full opening as a percentage `pct` between 0 and 100.
  predicate Opening(g: real, pct: real) {
    0.0 <= pct <= 100.0 && (0.0 <= g <= 1.0 ==> pct == 100.0 * g) && (g < 0.0 ==> pct == 0.0) && (g > 1.0 ==> pct == 100.0)
  }

  // Item i is due i + 1 steps of dt after the chunk; without a step nothing is ever due.
  predicate AtItemTime(dt: Option<real>, i: nat, due: Option<real>) {
    && (dt.None? ==> due.None?)
    && (dt.Some? ==> due == Some(dt.value * (i + 1) as real))
  }

  // The action is one that its item asks for, at that item's time.
  predicate Placed(items: seq<Item>, dt: Option<real>, m: Mapped) {
    && m.index < |items| && items[m.index].Item?
    && AtItemTime(dt, m.index, m.deadlineSec)
    && match m.command
       case MoveArm => items[m.index].hasJoints
       case SetGripper(pct) => items[m.index].gripper.Some? && Opening(items[m.index].gripper.value, pct)
       case StopMotion => items[m.index].done
  }

  // Items come in order, and within one the arm goes first and stopping last.
  predicate Sooner(a: Mapped, b: Mapped) {
    || a.index < b.index
    || (a.index == b.index && a.command.MoveArm? && !b.command.MoveArm?)
    || (a.index == b.index && a.command.SetGripper? && b.command.StopMotion?)
  }

  predicate InTurn(actions: seq<Mapped>) { forall i, j :: 0 <= i < j < |actions| ==> Sooner(actions[i], actions[j]) }

  lemma OpeningIs(g: real, pct: real)
    ensures Opening(g, pct) <==> pct == Clamp(g * 100.0, 0.0, 100.0)
  {
  }

  // What one item asks for, at its time.
  predicate Asked(item: Item, index: nat, due: Option<real>, m: Mapped) {
    && item.Item? && m.index == index && m.deadlineSec == due
    && match m.command
       case MoveArm => item.hasJoints
       case SetGripper(pct) => item.gripper.Some? && pct == Clamp(item.gripper.value * 100.0, 0.0, 100.0)
       case StopMotion => item.done
  }

  lemma ItemAsked(item: Item, index: nat, dt: Option<real>, m: Mapped)
    ensures m in ItemActions(item, index, dt) <==> Asked(item, index, ItemDeadline(dt, index), m)
  {
    if item.Item? && Asked(item, index, ItemDeadline(dt, index), m) {
      match m.command {
        case MoveArm => assert m == Mapped(MoveArm, index, ItemDeadline(dt, index));
        case SetGripper(pct) => assert m == Mapped(SetGripper(pct), index, ItemDeadline(dt, index));
        case StopMotion => assert m == Mapped(StopMotion, index, ItemDeadline(dt, index));
      }
    }
  }

  lemma TimeIs(dt: Option<real>, i: nat, due: Option<real>)
    ensures AtItemTime(dt, i, due) <==> due == ItemDeadline(dt, i)
  {
  }

  lemma ItemPlaced(items: seq<Item>, dt: Option<real>, m: Mapped)
    requires items != []
    ensures m in ItemActions(items[|items| - 1], |items| - 1, dt) <==> Placed(items, dt, m) && m.index == |items| - 1
  {
    var item, index := items[|items| - 1], |items| - 1;
    ItemAsked(item, index, dt, m);
    TimeIs(dt, m.index, m.deadlineSec);
    if item.Item? && item.gripper.Some? && m.command.SetGripper? { OpeningIs(item.gripper.value, m.command.openingPct); }
  }

  lemma ItemInTurn(item: Item, index: nat, dt: Option<real>)
    ensures InTurn(ItemActions(item, index, dt))
  {
  }

  lemma PlacedBefore(items: seq<Item>, dt: Option<real>, m: Mapped)
    requires items != []
    ensures Placed(items[..|items| - 1], dt, m) <==> Placed(items, dt, m) && m.index < |items| - 1
  {
  }

  // The mapped actions are exactly those that the items ask for, each once, at its item's
  // time and in the order of the items.
  lemma {:induction false} ChunkInOrder(items: seq<Item>, dt: Option<real>)
    ensures forall m :: m in ChunkActions(items, dt) <==> Placed(items, dt, m)
    ensures InTurn(ChunkActions(items, dt))
  {
    if items != [] {
      var front, last := items[..|items| - 1], |items| - 1;
      ChunkInOrder(front, dt);
      ItemInTurn(items[last], last, dt);
      var a, b := ChunkActions(front, dt), ItemActions(items[last], last, dt);
      forall m ensures m in a + b <==> Placed(items, dt, m) {
        ItemPlaced(items, dt, m);
        PlacedBefore(items, dt, m);
      }
      InTurnJoin(a, b, last, items, dt);
    }
  }

  lemma InTurnJoin(a: seq<Mapped>, b: seq<Mapped>, last: nat, items: seq<Item>, dt: Option<real>)
    requires InTurn(a) && InTurn(b) && last == |items| - 1
    requires forall m :: m in a ==> Placed(items[..last], dt, m)
    requires b == ItemActions(items[last], last, dt)
    ensures InTurn(a + b)
  {
    forall m | m in b ensures m.index == last { ItemPlaced(items, dt, m); }
    var all := a + b;
    forall i, j | 0 <= i < j < |all| ensures Sooner(all[i], all[j]) {
      if i < |a| <= j {
        assert all[i] in a && all[j] in b;
      }
    }
  }

  // With a nonnegative time step no later action has an earlier deadline.
  lemma DeadlinesInOrder(items: seq<Item>, dt: real, i: nat, j: nat)
    requires dt >= 0.0 && i < j < |ChunkActions(items, Some(dt))|
    ensures var actions := ChunkActions(items, Some(dt));
      actions[i].deadlineSec.Some? && actions[j].deadlineSec.Some?
      && actions[i].deadlineSec.value <= actions[j].deadlineSec.value
  {
    ChunkInOrder(items, Some(dt));
    var actions := ChunkActions(items, Some(dt));
    var first, second := actions[i], actions[j];
    assert first in actions && second in actions;
    PlacedInOrder(items, dt, first, second);
  }

  lemma PlacedInOrder(items: seq<Item>, dt: real, a: Mapped, b: Mapped)
    requires dt >= 0.0 && Placed(items, Some(dt), a) && Placed(items, Some(dt), b) && a.index <= b.index
    ensures a.deadlineSec.Some? && b.deadlineSec.Some? && a.deadlineSec.value <= b.deadlineSec.value
  {
    Scaled(dt, (a.index + 1) as real, (b.index + 1) as real);
  }

  lemma Scaled(k: real, a: real, b: real)
    requires k >= 0.0 && a <= b
    ensures k * a <= k * b
  {
    assert k * (b - a) >= 0.0;
  }
}
