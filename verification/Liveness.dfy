/** The consumer watchdog of bus/liveness.py: a clocked state machine that
    credits handler time back, caches the broker probe and decides when the
    process must exit.  Every reading of the clock is an argument. */
module Liveness {
  import opened Common

  const PROBE_INTERVAL := 10.0
  const STALL_EXIT_CODE := 75
  const ALL_BROKERS_DOWN := "_ALL_BROKERS_DOWN"

  datatype Reason = FatalError | Unassigned | Silent

  datatype Exit = Exit(at: real, reason: Reason, code: int)

  /** The fields of ConsumerLiveness, the times at which the brokers were really
      asked, and how the process ended. */
  datatype Live = Live(
    window: real,
    assignmentSize: int,
    lastPollAt: real,
    lastAssignmentAt: real,
    lastMessageAt: Option<real>,
    fatalError: Option<string>,
    lastError: Option<string>,
    brokersDownSince: Option<real>,
    handlerStartedAt: Option<real>,
    lastProbe: Option<real>,
    probeSaid: bool,
    probes: seq<real>,
    exit: Option<Exit>)

  /** What the consume loop, the client callbacks and the handlers do.
      `HandlerOut` knows when its handler started and reads the clock twice: at the
      end of the handler and once more. */
  datatype Step =
    | Assign(at: real, partitions: nat)
    | Revoke(at: real)
    | Poll(at: real, size: Option<int>)
    | Message(at: real)
    | BrokerError(at: real, name: string, text: string, fatal: bool)
    | HandlerIn(at: real)
    | HandlerOut(started: real, at: real, again: real)
    | Check(at: real, reachable: bool)
  {
    function End(): real {
      if HandlerOut? then again else at
    }
  }

  function Created(window: real, now: real): Live {
    Live(if window < 0.0 then 0.0 else window, 0, now, now, None, None, None, None, None, None, true, [], None)
  }

  // ----- the rule ------------------------------------------------------------

  function UnassignedFor(s: Live, now: real): real {
    if s.assignmentSize <= 0 then now - s.lastAssignmentAt else 0.0
  }

  function SilentFor(s: Live, now: real): real {
    now - s.lastPollAt
  }

  predicate HasFatal(s: Live) {
    s.fatalError.Some? && s.fatalError.value != ""
  }

  predicate ProbeIsFresh(s: Live, now: real) {
    s.lastProbe.Some? && now - s.lastProbe.value < PROBE_INTERVAL
  }

  function AfterProbe(s: Live, now: real, reachable: bool): Live {
    if ProbeIsFresh(s, now) then s
    else s.(lastProbe := Some(now), probeSaid := reachable, probes := s.probes + [now])
  }

  /** Is this the state in which the rule goes on to ask the brokers? */
  predicate Overdue(s: Live, now: real) {
    s.window > 0.0 && s.handlerStartedAt.None?
    && (UnassignedFor(s, now) >= s.window || SilentFor(s, now) >= s.window)
  }

  function StallReasonOf(s: Live, now: real, reachable: bool): Option<Reason> {
    if HasFatal(s) then Some(FatalError)
    else if !Overdue(s, now) || !AfterProbe(s, now, reachable).probeSaid then None
    else if UnassignedFor(s, now) >= s.window then Some(Unassigned)
    else Some(Silent)
  }

  function AfterStallReason(s: Live, now: real, reachable: bool): Live {
    if !HasFatal(s) && Overdue(s, now) then AfterProbe(s, now, reachable) else s
  }

  // ----- one step ------------------------------------------------------------

  function Apply(s: Live, step: Step): Live {
    match step
    case Assign(t, n) =>
      if n > 0 then s.(assignmentSize := n, lastAssignmentAt := t, brokersDownSince := None)
      else s.(assignmentSize := 0)
    case Revoke(_) => s.(assignmentSize := 0)
    case Poll(t, size) =>
      var owned := if size.Some? then size.value else s.assignmentSize;
      var s' := s.(assignmentSize := owned, lastPollAt := t);
      if owned > 0 then s'.(lastAssignmentAt := t, brokersDownSince := None) else s'
    case Message(t) => s.(lastMessageAt := Some(t), lastAssignmentAt := t, brokersDownSince := None)
    case BrokerError(t, name, text, fatal) =>
      var s' := s.(lastError := Some(text));
      if fatal then s'.(fatalError := Some(text))
      else if name == ALL_BROKERS_DOWN && s.brokersDownSince.None? then s'.(brokersDownSince := Some(t))
      else s'
    case HandlerIn(t) => s.(handlerStartedAt := Some(t))
    case HandlerOut(started, t, now) =>
      var s', elapsed := s.(handlerStartedAt := None), t - started;
      if elapsed > 0.0 then
        s'.(lastPollAt := Min(now, s.lastPollAt + elapsed),
            lastAssignmentAt := Min(now, s.lastAssignmentAt + elapsed))
      else s'
    case Check(t, reachable) =>
      var s' := AfterStallReason(s, t, reachable);
      var reason := StallReasonOf(s, t, reachable);
      if reason.Some? then s'.(exit := Some(Exit(t, reason.value, STALL_EXIT_CODE))) else s'
  }

  // ----- the object ----------------------------------------------------------

  class ConsumerLiveness {
    const stallWindow: real
    var assignmentSize: int
    var lastPollAt: real
    var lastAssignmentAt: real
    var lastMessageAt: Option<real>
    var fatalError: Option<string>
    var lastError: Option<string>
    var brokersDownSince: Option<real>
    var handlerStartedAt: Option<real>
    var lastProbe: Option<real>
    var probeSaid: bool
    var probes: seq<real>
    var exit: Option<Exit>

    ghost function State(): Live
      reads this
    {
      Live(stallWindow, assignmentSize, lastPollAt, lastAssignmentAt, lastMessageAt, fatalError, lastError,
           brokersDownSince, handlerStartedAt, lastProbe, probeSaid, probes, exit)
    }

    constructor (window: real, now: real)
      ensures State() == Created(window, now)
    {
      stallWindow := if window < 0.0 then 0.0 else window;
      assignmentSize := 0;
      lastPollAt, lastAssignmentAt := now, now;
      lastMessageAt, fatalError, lastError, brokersDownSince := None, None, None, None;
      handlerStartedAt, lastProbe := None, None;
      probeSaid, probes, exit := true, [], None;
    }

    method OnAssign(now: real, partitions: nat)
      modifies this
      ensures State() == Apply(old(State()), Assign(now, partitions))
    {
      assignmentSize := partitions;
      if assignmentSize != 0 {
        lastAssignmentAt := now;
        brokersDownSince := None;
      }
    }

    method OnRevoke(now: real)
      modifies this
      ensures State() == Apply(old(State()), Revoke(now))
    {
      assignmentSize := 0;
    }

    method RecordPoll(now: real, size: Option<int>)
      modifies this
      ensures State() == Apply(old(State()), Poll(now, size))
    {
      lastPollAt := now;
      if size.Some? {
        assignmentSize := size.value;
      }
      if assignmentSize > 0 {
        lastAssignmentAt := now;
        brokersDownSince := None;
      }
    }

    method RecordMessage(now: real)
      modifies this
      ensures State() == Apply(old(State()), Message(now))
    {
      lastMessageAt := Some(now);
      lastAssignmentAt := now;
      brokersDownSince := None;
    }

    method OnBrokerError(now: real, name: string, text: string, fatal: bool)
      modifies this
      ensures State() == Apply(old(State()), BrokerError(now, name, text, fatal))
    {
      lastError := Some(text);
      if fatal {
        fatalError := Some(text);
        return;
      }
      if name == ALL_BROKERS_DOWN {
        if brokersDownSince.None? {
          brokersDownSince := Some(now);
        }
      }
    }

    method EnterHandler(now: real)
      modifies this
      ensures State() == Apply(old(State()), HandlerIn(now))
    {
      handlerStartedAt := Some(now);
    }

    /** `started` is the local the context manager keeps. */
    method LeaveHandler(started: real, ended: real, now: real)
      modifies this
      ensures State() == Apply(old(State()), HandlerOut(started, ended, now))
    {
      handlerStartedAt := None;
      var elapsed := ended - started;
      if elapsed > 0.0 {
        lastPollAt := Min(now, lastPollAt + elapsed);
        lastAssignmentAt := Min(now, lastAssignmentAt + elapsed);
      }
    }

    method BrokersSayReachable(now: real, reachable: bool) returns (said: bool)
      modifies this
      ensures State() == AfterProbe(old(State()), now, reachable)
      ensures said == probeSaid
    {
      if lastProbe.Some? && now - lastProbe.value < PROBE_INTERVAL {
        return probeSaid;
      }
      lastProbe := Some(now);
      probes := probes + [now];
      probeSaid := reachable;
      return probeSaid;
    }

    method StallReason(now: real, reachable: bool) returns (reason: Option<Reason>)
      modifies this
      ensures reason == StallReasonOf(old(State()), now, reachable)
      ensures State() == AfterStallReason(old(State()), now, reachable)
    {
      if fatalError.Some? && fatalError.value != "" {
        return Some(FatalError);
      }
      if stallWindow <= 0.0 || handlerStartedAt.Some? {
        return None;
      }
      var unassignedFor := if assignmentSize <= 0 then now - lastAssignmentAt else 0.0;
      var silentFor := now - lastPollAt;
      if Max(unassignedFor, silentFor) < stallWindow {
        return None;
      }
      var said := BrokersSayReachable(now, reachable);
      if !said {
        return None;
      }
      if unassignedFor >= stallWindow {
        return Some(Unassigned);
      }
      return Some(Silent);
    }

    method CheckNow(now: real, reachable: bool)
      modifies this
      ensures State() == Apply(old(State()), Check(now, reachable))
    {
      var reason := StallReason(now, reachable);
      if reason.Some? {
        exit := Some(Exit(now, reason.value, STALL_EXIT_CODE));
      }
    }
  }

  // ----- runs ----------------------------------------------------------------

  /** A state with the clock and three readings of an idle clock, which stands
      still while a handler runs: its value now, at the last poll and at the last
      sign of an assignment.  `between` says both signs fell outside handlers. */
  datatype Watch = Watch(live: Live, now: real, idle: real, idleAtPoll: real, idleAtSign: real, between: bool)

  function Started(window: real, now: real): Watch {
    Watch(Created(window, now), now, 0.0, 0.0, 0.0, true)
  }

  /** May this step come next?  Time does not run backwards, handlers do not nest,
      and nothing happens after the exit. */
  predicate Next(w: Watch, step: Step) {
    && w.live.exit.None?
    && w.now <= step.at <= step.End()
    && (step.HandlerIn? ==> w.live.handlerStartedAt.None?)
    && (step.HandlerOut? ==> w.live.handlerStartedAt == Some(step.started))
  }

  function IdleAt(w: Watch, step: Step): real {
    var before := if w.live.handlerStartedAt.None? then step.at - w.now else 0.0;
    var after := if step.HandlerOut? then step.again - step.at else 0.0;
    w.idle + before + after
  }

  predicate ShowsAssignment(s: Live, step: Step) {
    match step
    case Assign(_, n) => n > 0
    case Poll(_, size) => (if size.Some? then size.value else s.assignmentSize) > 0
    case Message(_) => true
    case _ => false
  }

  function Advance(w: Watch, step: Step): Watch {
    var idle := IdleAt(w, step);
    var signs := ShowsAssignment(w.live, step);
    Watch(Apply(w.live, step), step.End(), idle,
          if step.Poll? then idle else w.idleAtPoll,
          if signs then idle else w.idleAtSign,
          w.between && (step.Poll? || signs ==> w.live.handlerStartedAt.None?))
  }

  ghost predicate ValidRun(w: Watch, steps: seq<Step>)
    decreases |steps|
  {
    steps == [] || (Next(w, steps[0]) && ValidRun(Advance(w, steps[0]), steps[1..]))
  }

  function Run(w: Watch, steps: seq<Step>): Watch
    decreases |steps|
  {
    if steps == [] then w else Run(Advance(w, steps[0]), steps[1..])
  }

  /** How long the handler that is running now has run. */
  function InHandler(w: Watch): real {
    if w.live.handlerStartedAt.Some? then w.now - w.live.handlerStartedAt.value else 0.0
  }

  ghost predicate Spaced(times: seq<real>) {
    forall i :: 0 < i < |times| ==> times[i] - times[i - 1] >= 10.0
  }

  /** The exit was earned: fatal, or after a full window in which no handler ran
      and the brokers had answered in the last ten seconds. */
  ghost predicate ExitEarned(w: Watch) {
    w.live.exit.Some? ==>
      var s, exit := w.live, w.live.exit.value;
      && exit.at == w.now && exit.code == 75
      && (exit.reason == FatalError <==> HasFatal(s))
      && (exit.reason != FatalError ==>
            && s.window > 0.0
            && s.handlerStartedAt.None?
            && s.probeSaid && ProbeIsFresh(s, w.now)
            && (exit.reason == Unassigned ==> s.assignmentSize <= 0 && w.idle - w.idleAtSign >= s.window)
            && (exit.reason == Silent ==> w.idle - w.idleAtPoll >= s.window))
  }

  /** Silence is never more than the time outside handlers plus the handler that
      is running, and exactly that while the loop polls between handlers only. */
  ghost predicate BaselinesHold(w: Watch) {
    var s := w.live;
    && s.lastPollAt <= w.now && s.lastAssignmentAt <= w.now
    && (s.handlerStartedAt.Some? ==> s.handlerStartedAt.value <= w.now)
    && w.idleAtPoll <= w.idle && w.idleAtSign <= w.idle
    && w.now - s.lastPollAt <= w.idle - w.idleAtPoll + InHandler(w)
    && w.now - s.lastAssignmentAt <= w.idle - w.idleAtSign + InHandler(w)
    && (w.between ==>
          && w.now - s.lastPollAt == w.idle - w.idleAtPoll + InHandler(w)
          && w.now - s.lastAssignmentAt == w.idle - w.idleAtSign + InHandler(w)
          && (s.handlerStartedAt.Some? ==>
                s.lastPollAt <= s.handlerStartedAt.value && s.lastAssignmentAt <= s.handlerStartedAt.value))
  }

  ghost predicate ProbesHold(w: Watch) {
    var s := w.live;
    && Spaced(s.probes)
    && (s.lastProbe.Some? <==> s.probes != [])
    && (s.lastProbe.Some? ==> s.lastProbe.value == s.probes[|s.probes| - 1] <= w.now)
  }

  ghost predicate Inv(w: Watch) {
    BaselinesHold(w) && ProbesHold(w) && ExitEarned(w)
  }

  lemma StepKeepsBaselines(w: Watch, step: Step)
    requires BaselinesHold(w) && Next(w, step)
    ensures BaselinesHold(Advance(w, step))
  {
    if step.HandlerOut? {
      LeavingKeepsBaselines(w, step);
    }
  }

  /** Leaving a handler credits exactly the time it ran. */
  lemma LeavingKeepsBaselines(w: Watch, step: Step)
    requires BaselinesHold(w) && Next(w, step) && step.HandlerOut?
    ensures BaselinesHold(Advance(w, step))
  {
    var s, ran := w.live, step.at - w.live.handlerStartedAt.value;
    assert Advance(w, step).idle == w.idle + (step.again - step.at);
    assert ran > 0.0 ==> Advance(w, step).live.lastPollAt == Min(step.again, s.lastPollAt + ran);
  }

  lemma StepKeepsProbes(w: Watch, step: Step)
    requires ProbesHold(w) && Next(w, step)
    ensures ProbesHold(Advance(w, step))
  {
    if step.Check? && !HasFatal(w.live) && Overdue(w.live, step.at) && !ProbeIsFresh(w.live, step.at) {
      assert Advance(w, step).live.probes == w.live.probes + [step.at];
    } else {
      assert Advance(w, step).live.probes == w.live.probes;
    }
  }

  lemma StepEarnsExit(w: Watch, step: Step)
    requires BaselinesHold(w) && ProbesHold(w) && Next(w, step)
    ensures ExitEarned(Advance(w, step))
  {
    if step.Check? {
      assert step.End() == step.at;
    }
  }

  lemma StepKeepsInv(w: Watch, step: Step)
    requires Inv(w) && Next(w, step)
    ensures Inv(Advance(w, step))
  {
    StepKeepsBaselines(w, step);
    StepKeepsProbes(w, step);
    StepEarnsExit(w, step);
  }

  lemma {:induction false} RunKeepsInv(w: Watch, steps: seq<Step>)
    requires Inv(w) && ValidRun(w, steps)
    ensures Inv(Run(w, steps))
    decreases |steps|
  {
    if steps != [] {
      StepKeepsInv(w, steps[0]);
      RunKeepsInv(Advance(w, steps[0]), steps[1..]);
    }
  }

  /** Over every run with non-nested handlers: both baselines stay at or before
      now, the measured silence is at most the time spent outside handlers since
      the last poll (exactly that if the loop polls between handlers), probes are
      at least ten seconds apart, and no exit is premature. */
  lemma HandlerTimeIsNeverIdle(window: real, now: real, steps: seq<Step>)
    requires ValidRun(Started(window, now), steps)
    ensures Inv(Run(Started(window, now), steps))
  {
    RunKeepsInv(Started(window, now), steps);
  }

  /** Inside a handler only a fatal client error ends the process. */
  lemma NoExitInsideHandler(w: Watch, step: Step)
    requires Inv(w) && Next(w, step) && w.live.handlerStartedAt.Some? && !step.HandlerOut?
    ensures Advance(w, step).live.exit.Some? <==> step.Check? && HasFatal(w.live)
  {
  }

  // ----- what the watchdog remembers -------------------------------------------

  /** How many partitions the latest word on it says there are. */
  function LatestSize(steps: seq<Step>, before: int): int {
    if steps == [] then before
    else
      match steps[|steps| - 1]
      case Assign(_, n) => n
      case Revoke(_) => 0
      case Poll(_, Some(n)) => n
      case _ => LatestSize(steps[..|steps| - 1], before)
  }

  function LatestMessage(steps: seq<Step>, before: Option<real>): Option<real> {
    if steps == [] then before
    else if steps[|steps| - 1].Message? then Some(steps[|steps| - 1].at)
    else LatestMessage(steps[..|steps| - 1], before)
  }

  function LatestError(steps: seq<Step>, before: Option<string>): Option<string> {
    if steps == [] then before
    else if steps[|steps| - 1].BrokerError? then Some(steps[|steps| - 1].text)
    else LatestError(steps[..|steps| - 1], before)
  }

  function LatestPoll(steps: seq<Step>, before: real): real {
    if steps == [] then before
    else if steps[|steps| - 1].Poll? then steps[|steps| - 1].at
    else LatestPoll(steps[..|steps| - 1], before)
  }

  lemma {:induction false} ApplyLast(s: Live, steps: seq<Step>)
    requires steps != []
    ensures ApplyAll(s, steps) == Apply(ApplyAll(s, steps[..|steps| - 1]), steps[|steps| - 1])
    decreases |steps|
  {
    if |steps| == 1 {
      assert steps[1..] == [] && steps[..0] == [];
    } else {
      assert steps[1..][..|steps| - 2] == steps[..|steps| - 1][1..];
      ApplyLast(Apply(s, steps[0]), steps[1..]);
    }
  }

  /** Over every run: the assignment, the last message, the last error and, between
      handlers, the last poll are those of the latest step that speaks of them. */
  lemma {:induction false} RemembersTheLatest(s: Live, steps: seq<Step>)
    ensures ApplyAll(s, steps).assignmentSize == LatestSize(steps, s.assignmentSize)
    ensures ApplyAll(s, steps).lastMessageAt == LatestMessage(steps, s.lastMessageAt)
    ensures ApplyAll(s, steps).lastError == LatestError(steps, s.lastError)
    ensures (forall i :: 0 <= i < |steps| ==> !steps[i].HandlerOut?) ==>
              ApplyAll(s, steps).lastPollAt == LatestPoll(steps, s.lastPollAt)
    decreases |steps|
  {
    if steps != [] {
      RemembersTheLatest(s, steps[..|steps| - 1]);
      ApplyLast(s, steps);
    }
  }

  /** The brokers are asked by a check that finds the loop idle for a whole window, outside
      handlers, with no answer younger than ten seconds; and by nothing else. */
  lemma AsksBrokersExactly(s: Live, step: Step)
    ensures Apply(s, step).probes != s.probes
            <==> && step.Check? && !HasFatal(s) && s.handlerStartedAt.None? && s.window > 0.0
                 && ((s.assignmentSize <= 0 && step.at - s.lastAssignmentAt >= s.window)
                     || step.at - s.lastPollAt >= s.window)
                 && (s.lastProbe.Some? ==> step.at - s.lastProbe.value >= 10.0)
  {
  }

  // ----- fatal errors ----------------------------------------------------------

  predicate ReportsFatal(step: Step) {
    step.BrokerError? && step.fatal
  }

  lemma {:induction false} FatalErrorStays(s: Live, steps: seq<Step>)
    requires forall i :: 0 <= i < |steps| ==> !ReportsFatal(steps[i])
    ensures ApplyAll(s, steps).fatalError == s.fatalError
    decreases |steps|
  {
    if steps != [] {
      FatalErrorStays(Apply(s, steps[0]), steps[1..]);
    }
  }

  function ApplyAll(s: Live, steps: seq<Step>): Live
    decreases |steps|
  {
    if steps == [] then s else ApplyAll(Apply(s, steps[0]), steps[1..])
  }

  /** A fatal client error ends the process at the next check with code 75, whatever comes
      between: inside a handler, with the brokers down, or with the watchdog's window off.
      An error that is not fatal never does. */
  lemma FatalErrorsExit(s: Live, t: real, name: string, text: string, fatal: bool, steps: seq<Step>, later: real,
                        reachable: bool)
    requires text != "" && s.fatalError.None? && forall i :: 0 <= i < |steps| ==> !ReportsFatal(steps[i])
    ensures var after := ApplyAll(Apply(s, BrokerError(t, name, text, fatal)), steps);
            var end := Apply(after, Check(later, reachable));
            && after.fatalError == (if fatal then Some(text) else None)
            && (fatal ==> end.exit == Some(Exit(later, FatalError, 75)))
            && (!fatal && after.exit.None? && end.exit.Some? ==> end.exit.value.reason != FatalError)
  {
    FatalErrorStays(Apply(s, BrokerError(t, name, text, fatal)), steps);
  }

  // ----- nested handlers -------------------------------------------------------

  /** The watchdog, the handlers that really run, innermost last, and whether the
      latest of entering and leaving was leaving. */
  datatype Nested = Nested(live: Live, open: seq<real>, lastLeft: bool)

  predicate NestNext(n: Nested, step: Step) {
    step.HandlerOut? ==> n.open != [] && step.started == n.open[|n.open| - 1]
  }

  function Nest(n: Nested, step: Step): Nested
    requires NestNext(n, step)
  {
    match step
    case HandlerIn(t) => Nested(Apply(n.live, step), n.open + [t], false)
    case HandlerOut(_, _, _) => Nested(Apply(n.live, step), n.open[..|n.open| - 1], true)
    case _ => n.(live := Apply(n.live, step))
  }

  ghost predicate NestRun(n: Nested, steps: seq<Step>, end: Nested)
    decreases |steps|
  {
    if steps == [] then end == n else NestNext(n, steps[0]) && NestRun(Nest(n, steps[0]), steps[1..], end)
  }

  predicate Remembers(n: Nested) {
    n.live.handlerStartedAt == if n.open == [] || n.lastLeft then None else Some(n.open[|n.open| - 1])
  }

  lemma {:induction false} NestRunRemembers(n: Nested, steps: seq<Step>, end: Nested)
    requires Remembers(n) && NestRun(n, steps, end)
    ensures Remembers(end)
    decreases |steps|
  {
    if steps != [] {
      NestRunRemembers(Nest(n, steps[0]), steps[1..], end);
    }
  }

  /** In every run, handlers nested as deep as they like: while a handler runs the
      watchdog has forgotten it exactly when an inner one was left and none entered
      since; and then a check ends the process exactly as if the loop were idle. */
  lemma ForgottenExactly(window: real, now: real, steps: seq<Step>, end: Nested, at: real, reachable: bool)
    requires NestRun(Nested(Created(window, now), [], false), steps, end) && end.open != []
    requires end.live.exit.None?
    ensures end.live.handlerStartedAt.None? <==> end.lastLeft
    ensures Apply(end.live, Check(at, reachable)).exit.Some?
            <==> HasFatal(end.live)
                 || (end.lastLeft && end.live.window > 0.0
                     && Max(UnassignedFor(end.live, at), SilentFor(end.live, at)) >= end.live.window
                     && AfterProbe(end.live, at, reachable).probeSaid)
  {
    NestRunRemembers(Nested(Created(window, now), [], false), steps, end);
  }

  /** One such run: leaving the inner handler forgets the outer one, and a check made
      inside the outer one ends the process. */
  lemma NestedHandlerCanBeKilled()
    ensures var s0 := Apply(Created(120.0, 0.0), HandlerIn(0.0));
            var s1 := Apply(Apply(s0, HandlerIn(1.0)), HandlerOut(1.0, 2.0, 2.0));
            Apply(s1, Check(200.0, true)).exit == Some(Exit(200.0, Unassigned, STALL_EXIT_CODE))
  {
  }

  // ----- an outage is dated once -----------------------------------------------

  predicate ReportsDown(step: Step) {
    step.BrokerError? && !step.fatal && step.name == "_ALL_BROKERS_DOWN"
  }

  /** When the brokers were first reported down. */
  function FirstDown(steps: seq<Step>): Option<real> {
    if steps == [] then None else if ReportsDown(steps[0]) then Some(steps[0].at) else FirstDown(steps[1..])
  }

  ghost predicate NoSign(w: Watch, steps: seq<Step>)
    decreases |steps|
  {
    steps == [] || (!ShowsAssignment(w.live, steps[0]) && NoSign(Advance(w, steps[0]), steps[1..]))
  }

  /** Until a sign of an assignment the outage keeps the date of its first report. */
  lemma {:induction false} OutageIsDatedOnce(w: Watch, steps: seq<Step>)
    requires ValidRun(w, steps) && NoSign(w, steps)
    ensures Run(w, steps).live.brokersDownSince ==
            if w.live.brokersDownSince.Some? then w.live.brokersDownSince else FirstDown(steps)
    decreases |steps|
  {
    if steps != [] {
      OutageIsDatedOnce(Advance(w, steps[0]), steps[1..]);
    }
  }

  /** And a sign ends it. */
  lemma SignEndsOutage(w: Watch, step: Step)
    requires Next(w, step)
    ensures ShowsAssignment(w.live, step) ==> Advance(w, step).live.brokersDownSince.None?
    ensures w.live.brokersDownSince.Some? && Advance(w, step).live.brokersDownSince.None? ==>
        ShowsAssignment(w.live, step)
  {
  }

  // ----- how soon a stall is seen ----------------------------------------------

  /** The loop is idle: no partitions, no messages, no handler, and from `since` on
      the brokers answer. */
  predicate Quiet(step: Step, since: real) {
    match step
    case Assign(_, n) => n == 0
    case Revoke(_) => true
    case Poll(_, size) => size.Some? ==> size.value <= 0
    case BrokerError(_, _, _, _) => true
    case Check(t, reachable) => t >= since ==> reachable
    case _ => false
  }

  /** No stretch of the run longer than `d` goes by without a check. */
  ghost predicate CheckedEvery(steps: seq<Step>, last: real, d: real)
    decreases |steps|
  {
    steps == [] ||
    (steps[0].at <= last + d && CheckedEvery(steps[1..], if steps[0].Check? then steps[0].at else last, d))
  }

  ghost predicate Stalled(w: Watch, since: real, reachableSince: real) {
    && Inv(w)
    && w.live.window > 0.0
    && w.live.handlerStartedAt.None?
    && w.live.assignmentSize <= 0
    && w.live.lastAssignmentAt <= since
    && (w.live.lastProbe.Some? && w.live.lastProbe.value >= reachableSince ==> w.live.probeSaid)
  }

  /** Once a stall is due and the brokers have answered for ten seconds, the very
      next check exits. */
  lemma CheckSeesStall(w: Watch, step: Step, since: real, reachableSince: real)
    requires Stalled(w, since, reachableSince) && Next(w, step)
    requires step.Check? && Quiet(step, reachableSince)
    requires step.at >= Max(since + w.live.window, reachableSince + 10.0)
    ensures Advance(w, step).live.exit.Some?
  {
  }

  /** With a positive window, no handler running, the assignment empty since
      `since`, the brokers answering since `reachableSince` and a check at least
      every `d` seconds, the process exits by max(since + window,
      reachableSince + 10) + d: never later, and the run cannot outlive it. */
  lemma {:induction false} StallIsSeenInTime(
    w: Watch, steps: seq<Step>, last: real, since: real, reachableSince: real, d: real)
    requires Stalled(w, since, reachableSince) && w.live.exit.None? && ValidRun(w, steps)
    requires forall i :: 0 <= i < |steps| ==> Quiet(steps[i], reachableSince)
    requires CheckedEvery(steps, last, d)
    requires w.now <= last + d && 0.0 <= d
    requires last <= Max(since + w.live.window, reachableSince + 10.0)
    ensures var due, end := Max(since + w.live.window, reachableSince + 10.0), Run(w, steps);
            && (end.live.exit.Some? ==> end.live.exit.value.at <= due + d)
            && end.now <= due + d
    decreases |steps|
  {
    if steps != [] {
      var step, w' := steps[0], Advance(w, steps[0]);
      StepKeepsInv(w, step);
      if w'.live.exit.Some? {
        assert steps[1..] == [];
        assert Run(w, steps) == w';
      } else {
        if step.Check? && step.at >= Max(since + w.live.window, reachableSince + 10.0) {
          CheckSeesStall(w, step, since, reachableSince);
        }
        StallIsSeenInTime(w', steps[1..], if step.Check? then step.at else last, since, reachableSince, d);
      }
    }
  }
}
