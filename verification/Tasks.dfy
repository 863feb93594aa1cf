/** The task engine, comm/tasks.py: start with a dedupe key, the atomic claim, the handler
    outcomes with requeue and park, and crashes, interleaved in any order. */
module Tasks {
  import opened Common
  import opened Backoff

  datatype State = Pending | Running | Done | Failed

  datatype Reason = Handler | Unprocessable | NoHandler | Deadline

  /** A task row, with what was announced about it and how its attempts ended. */
  datatype Row = Row(
    key: string, maxAttempts: nat,
    state: State, attempts: nat, notBefore: Option<real>, reason: Option<Reason>,
    requested: nat, completed: nat, failed: nat,
    requeues: nat, reannounced: nat, answered: nat, held: real)

  /** TASK_RETRY_BACKOFF_BASE, TASK_RETRY_BACKOFF_CAP, TASK_UNANSWERED_RETRIES. */
  datatype Config = Config(base: real, cap: real, grace: nat)

  /** One claimed attempt: a worker has it, died with it, or is through with it. */
  datatype Attempt = Attempt(task: nat, number: nat, phase: Phase)

  datatype Phase = Active | Crashed | Over

  /** How a handler ends: its result, a ValidationError or a reply too large for the wire,
      no responder, any other exception, or no handler to call. */
  datatype Outcome = Succeeded | RefusedValues | NoResponder | Raised | Unrouted

  /** A call of start(), between its statements. */
  datatype StartCall = StartCall(key: string, maxAttempts: nat, at: StartPhase)

  datatype StartPhase = Selecting | Inserting | Reselecting | Started(task: nat) | Refused

  datatype World = World(rows: seq<Row>, attempts: seq<Attempt>, starts: seq<StartCall>)

  datatype Step =
    | Call(key: string, maxAttempts: nat)
    | Select(start: nat)
    | Insert(start: nat)
    | Reselect(start: nat)
    | Announce(task: nat, now: real)
    | Reannounce(task: nat)
    | Conclude(attempt: nat, outcome: Outcome, now: real, delay: real)
    | Crash(attempt: nat)

  const EMPTY := World([], [], [])

  // ----- rows ----------------------------------------------------------------------------

  predicate Live(row: Row) {
    row.state.Pending? || row.state.Running?
  }

  predicate Due(row: Row, now: real) {
    row.notBefore.None? || row.notBefore.value <= now
  }

  predicate Claimable(row: Row, now: real) {
    row.state.Pending? && Due(row, now)
  }

  function NewRow(key: string, maxAttempts: nat): Row {
    Row(key, maxAttempts, Pending, 0, None, None, 1, 0, 0, 0, 0, 0, 0.0)
  }

  function Claimed(row: Row): Row {
    row.(state := Running, attempts := row.attempts + 1)
  }

  function Finished(row: Row): Row {
    row.(state := Done, completed := row.completed + 1, answered := row.answered + 1)
  }

  /** `answers` says whether the attempt ended other than for want of a responder. */
  function Parked(row: Row, reason: Reason, answers: bool): Row {
    row.(state := Failed, reason := Some(reason), failed := row.failed + 1,
         answered := if answers then row.answered + 1 else row.answered)
  }

  function Requeued(row: Row, notBefore: real, delay: real, answers: bool): Row {
    row.(state := Pending, notBefore := Some(notBefore), requested := row.requested + 1, requeues := row.requeues + 1,
         held := row.held + delay, answered := if answers then row.answered + 1 else row.answered)
  }

  /** The row after an attempt ends; `number` is what the worker read at claim time. */
  function Concluded(cfg: Config, row: Row, number: nat, outcome: Outcome, now: real, delay: real): Row {
    match outcome
    case Succeeded => Finished(row)
    case RefusedValues => Parked(row, Unprocessable, true)
    case Unrouted => Parked(row, NoHandler, true)
    case NoResponder =>
      if number < row.maxAttempts + cfg.grace then Requeued(row, now + delay, delay, false)
      else Parked(row, Handler, false)
    case Raised =>
      if number < row.maxAttempts then Requeued(row, now + delay, delay, true) else Parked(row, Handler, true)
  }

  /** A delay the ladder can draw for this attempt. */
  predicate Drawn(cfg: Config, number: nat, delay: real) {
    var ceiling := RetryCeiling(number, cfg.base, cfg.cap);
    if ceiling <= 0.0 then delay == 0.0 else 0.0 <= delay <= ceiling
  }

  // ----- steps -----------------------------------------------------------------------------

  predicate LiveFor(w: World, key: string, id: nat) {
    id < |w.rows| && Live(w.rows[id]) && w.rows[id].key == key
  }

  /** The row of this key that is live, the first one there is. */
  function FirstLive(rows: seq<Row>, key: string): Option<nat> {
    if rows == [] then None
    else if FirstLive(rows[..|rows| - 1], key).Some? then FirstLive(rows[..|rows| - 1], key)
    else if Live(rows[|rows| - 1]) && rows[|rows| - 1].key == key then Some(|rows| - 1)
    else None
  }

  predicate StartAt(w: World, i: nat, at: StartPhase) {
    i < |w.starts| && w.starts[i].at == at
  }

  predicate ActiveAt(w: World, i: nat) {
    i < |w.attempts| && w.attempts[i].phase.Active? && w.attempts[i].task < |w.rows|
  }

  ghost predicate Allowed(cfg: Config, w: World, step: Step) {
    match step
    case Call(_, _) => true
    case Select(i) => StartAt(w, i, Selecting)
    case Insert(i) => StartAt(w, i, Inserting)
    case Reselect(i) => StartAt(w, i, Reselecting)
    case Announce(_, _) => true
    case Reannounce(i) => i < |w.rows| && w.rows[i].state.Pending? && w.rows[i].attempts > 0
    case Conclude(i, _, _, delay) => ActiveAt(w, i) && Drawn(cfg, w.attempts[i].number, delay)
    case Crash(i) => ActiveAt(w, i)
  }

  function Moved(w: World, i: nat, at: StartPhase): World
    requires i < |w.starts|
  {
    w.(starts := w.starts[i := w.starts[i].(at := at)])
  }

  ghost function Do(cfg: Config, w: World, step: Step): World
    requires Allowed(cfg, w, step)
  {
    match step
    case Call(key, maxAttempts) => w.(starts := w.starts + [StartCall(key, maxAttempts, Selecting)])
    case Select(i) =>
      var live := FirstLive(w.rows, w.starts[i].key);
      if w.starts[i].key != "" && live.Some? then Moved(w, i, Started(live.value)) else Moved(w, i, Inserting)
    case Insert(i) =>
      var call := w.starts[i];
      // the partial unique index: one live row for each key that is not empty
      if call.key != "" && FirstLive(w.rows, call.key).Some? then Moved(w, i, Reselecting)
      else Moved(w, i, Started(|w.rows|)).(rows := w.rows + [NewRow(call.key, call.maxAttempts)])
    case Reselect(i) =>
      var live := FirstLive(w.rows, w.starts[i].key);
      Moved(w, i, if live.Some? then Started(live.value) else Refused)
    case Announce(i, now) =>
      if i < |w.rows| && Claimable(w.rows[i], now) then
        w.(rows := w.rows[i := Claimed(w.rows[i])],
           attempts := w.attempts + [Attempt(i, w.rows[i].attempts + 1, Active)])
      else w
    case Reannounce(i) =>
      var row := w.rows[i];
      w.(rows := w.rows[i := row.(requested := row.requested + 1, reannounced := row.reannounced + 1)])
    case Conclude(i, outcome, now, delay) =>
      var a := w.attempts[i];
      w.(rows := w.rows[a.task := Concluded(cfg, w.rows[a.task], a.number, outcome, now, delay)],
         attempts := w.attempts[i := a.(phase := Over)])
    case Crash(i) => w.(attempts := w.attempts[i := w.attempts[i].(phase := Crashed)])
  }

  ghost predicate Runs(cfg: Config, w: World, steps: seq<Step>, end: World)
    decreases |steps|
  {
    if steps == [] then end == w
    else Allowed(cfg, w, steps[0]) && Runs(cfg, Do(cfg, w, steps[0]), steps[1..], end)
  }

  // ----- the invariant -----------------------------------------------------------------------

  function AtLeastOne(n: nat): nat {
    if n == 0 then 1 else n
  }

  /** How often a task can be claimed. */
  function Budget(cfg: Config, row: Row): nat {
    AtLeastOne(row.maxAttempts + cfg.grace)
  }

  /** What was announced is what happened. */
  predicate Conserved(row: Row) {
    && row.requested == 1 + row.requeues + row.reannounced
    && row.attempts == row.requeues + (if row.state.Pending? then 0 else 1)
    && row.completed == (if row.state.Done? then 1 else 0)
    && row.failed == (if row.state.Failed? then 1 else 0)
    && (row.reason.Some? <==> row.state.Failed?)
  }

  /** Claims stay in the budget, and attempts that were answered in max_attempts. */
  predicate Budgeted(cfg: Config, row: Row) {
    && row.attempts <= Budget(cfg, row)
    && (row.state.Pending? ==> row.attempts < Budget(cfg, row))
    && row.answered <= row.attempts
    && (row.state.Running? ==> row.answered < row.attempts)
    && row.answered <= AtLeastOne(row.maxAttempts)
    && (Live(row) ==> row.answered < AtLeastOne(row.maxAttempts))
  }

  /** Handled delays stay under the ladder. */
  predicate HeldUnder(cfg: Config, row: Row) {
    cfg.cap >= 0.0 ==> row.held <= LadderSum(row.requeues, cfg.base, cfg.cap)
  }

  predicate RowInv(cfg: Config, row: Row) {
    Conserved(row) && Budgeted(cfg, row) && HeldUnder(cfg, row)
  }

  ghost predicate Rows(cfg: Config, w: World) {
    forall i :: 0 <= i < |w.rows| ==> RowInv(cfg, w.rows[i])
  }

  /** An attempt in progress owns its row: RUNNING, with the number it read. */
  ghost predicate Owns(w: World, a: Attempt) {
    a.task < |w.rows| && w.rows[a.task].state.Running? && w.rows[a.task].attempts == a.number
  }

  ghost predicate Owners(w: World) {
    && (forall i :: 0 <= i < |w.attempts| && !w.attempts[i].phase.Over? ==> Owns(w, w.attempts[i]))
    && (forall i, j :: 0 <= i < j < |w.attempts| && !w.attempts[i].phase.Over? && !w.attempts[j].phase.Over? ==>
          w.attempts[i].task != w.attempts[j].task)
  }

  /** At most one live task for each key that is not empty. */
  ghost predicate Deduplicated(w: World) {
    forall i, j :: 0 <= i < j < |w.rows| && Live(w.rows[i]) && Live(w.rows[j]) && w.rows[i].key == w.rows[j].key ==>
      w.rows[i].key == ""
  }

  ghost predicate Inv(cfg: Config, w: World) {
    Rows(cfg, w) && Owners(w) && Deduplicated(w)
  }

  lemma {:induction false} FirstLiveFinds(rows: seq<Row>, key: string)
    ensures match FirstLive(rows, key)
            case Some(i) => i < |rows| && Live(rows[i]) && rows[i].key == key
            case None => forall i :: 0 <= i < |rows| ==> !(Live(rows[i]) && rows[i].key == key)
  {
    if rows != [] {
      var front := rows[..|rows| - 1];
      FirstLiveFinds(front, key);
      assert forall i :: 0 <= i < |front| ==> front[i] == rows[i];
    }
  }

  lemma ConcludedKeepsRow(cfg: Config, row: Row, outcome: Outcome, now: real, delay: real)
    requires RowInv(cfg, row) && row.state.Running? && Drawn(cfg, row.attempts, delay)
    ensures RowInv(cfg, Concluded(cfg, row, row.attempts, outcome, now, delay))
  {
  }

  lemma StepKeepsRows(cfg: Config, w: World, step: Step)
    requires Rows(cfg, w) && Owners(w) && Allowed(cfg, w, step)
    ensures Rows(cfg, Do(cfg, w, step))
  {
    match step {
      case Conclude(i, outcome, now, delay) =>
        assert Owns(w, w.attempts[i]);
        ConcludedKeepsRow(cfg, w.rows[w.attempts[i].task], outcome, now, delay);
      case _ =>
    }
  }

  lemma StepKeepsOwners(cfg: Config, w: World, step: Step)
    requires Owners(w) && Allowed(cfg, w, step)
    ensures Owners(Do(cfg, w, step))
  {
    var end := Do(cfg, w, step);
    forall i | 0 <= i < |end.attempts| && !end.attempts[i].phase.Over? ensures Owns(end, end.attempts[i]) {
      if i < |w.attempts| {
        assert Owns(w, w.attempts[i]);
      }
    }
  }

  /** A step revives nothing, and adds a live row only where there was none of its key. */
  lemma StepKeepsDedupe(cfg: Config, w: World, step: Step)
    requires Owners(w) && Deduplicated(w) && Allowed(cfg, w, step)
    ensures Deduplicated(Do(cfg, w, step))
  {
    var end := Do(cfg, w, step);
    match step {
      case Insert(i) => FirstLiveFinds(w.rows, w.starts[i].key);
      case Conclude(i, _, _, _) =>
        assert Owns(w, w.attempts[i]);
        assert forall j :: 0 <= j < |w.rows| && Live(end.rows[j]) ==>
            Live(w.rows[j]) && w.rows[j].key == end.rows[j].key;
      case _ =>
    }
  }

  lemma StepKeepsInv(cfg: Config, w: World, step: Step)
    requires Inv(cfg, w) && Allowed(cfg, w, step)
    ensures Inv(cfg, Do(cfg, w, step))
  {
    StepKeepsRows(cfg, w, step);
    StepKeepsOwners(cfg, w, step);
    StepKeepsDedupe(cfg, w, step);
  }

  // ----- whole runs ----------------------------------------------------------------------------

  /** DONE and FAILED are final, and no row changes its key or its limit. */
  ghost predicate Settled(w: World, end: World) {
    && |w.rows| <= |end.rows|
    && (forall i :: 0 <= i < |w.rows| ==>
          end.rows[i].key == w.rows[i].key && end.rows[i].maxAttempts == w.rows[i].maxAttempts &&
          (!Live(w.rows[i]) ==> end.rows[i] == w.rows[i]))
  }

  lemma StepSettles(cfg: Config, w: World, step: Step)
    requires Owners(w) && Allowed(cfg, w, step)
    ensures Settled(w, Do(cfg, w, step))
  {
    if step.Conclude? {
      assert Owns(w, w.attempts[step.attempt]);
    }
  }

  lemma {:induction false} RunKeepsInv(cfg: Config, w: World, steps: seq<Step>, end: World)
    requires Inv(cfg, w) && Runs(cfg, w, steps, end)
    ensures Inv(cfg, end) && Settled(w, end)
    decreases |steps|
  {
    if steps != [] {
      var next := Do(cfg, w, steps[0]);
      StepKeepsInv(cfg, w, steps[0]);
      StepSettles(cfg, w, steps[0]);
      RunKeepsInv(cfg, next, steps[1..], end);
      assert forall i :: 0 <= i < |w.rows| ==> end.rows[i].key == next.rows[i].key;
    }
  }

  /** The journal of every reachable state. */
  lemma JournalConserved(cfg: Config, steps: seq<Step>, end: World, i: nat)
    requires Runs(cfg, EMPTY, steps, end) && i < |end.rows|
    ensures Conserved(end.rows[i])
    ensures forall a, b :: 0 <= a < b < |end.attempts| ==>
              !(&& end.attempts[a].phase.Active? && end.attempts[b].phase.Active?
                && end.attempts[a].task == end.attempts[b].task)
  {
    RunKeepsInv(cfg, EMPTY, steps, end);
  }

  /** However failures interleave: at most max(1, max_attempts + grace) claims, at most
      max(1, max_attempts) attempts that ended other than with no responder, and no more
      holding than the backoff ladder allows. */
  lemma RetryBudget(cfg: Config, steps: seq<Step>, end: World, i: nat)
    requires Runs(cfg, EMPTY, steps, end) && i < |end.rows|
    ensures end.rows[i].attempts <= AtLeastOne(end.rows[i].maxAttempts + cfg.grace)
    ensures end.rows[i].answered <= AtLeastOne(end.rows[i].maxAttempts)
    ensures cfg.cap >= 0.0 ==> end.rows[i].held <= LadderSum(end.rows[i].requeues, cfg.base, cfg.cap)
  {
    RunKeepsInv(cfg, EMPTY, steps, end);
  }

  /** All the holding of a task together, in closed form. */
  lemma HoldBound(cfg: Config, steps: seq<Step>, end: World, i: nat)
    requires Runs(cfg, EMPTY, steps, end) && i < |end.rows| && cfg.base > 0.0 && cfg.cap >= 0.0
    ensures end.rows[i].held <= end.rows[i].requeues as real * cfg.cap
    ensures end.rows[i].requeues <= LAST_EXACT_ATTEMPT ==>
              end.rows[i].held <= cfg.base * (Pow2(end.rows[i].requeues) - 1.0)
  {
    RetryBudget(cfg, steps, end, i);
    LadderSumBound(end.rows[i].requeues, cfg.base, cfg.cap);
  }

  /** At most one live task per key, in every interleaving of starts and executors. */
  lemma OneLiveTaskPerKey(cfg: Config, steps: seq<Step>, end: World, i: nat, j: nat, key: string)
    requires Runs(cfg, EMPTY, steps, end) && key != "" && LiveFor(end, key, i) && LiveFor(end, key, j)
    ensures i == j
  {
    RunKeepsInv(cfg, EMPTY, steps, end);
  }

  /** The id a start() call returns names a task of its key that is live at that instant,
      and a task is created only where none of its key was live. */
  lemma StartReturnsLive(cfg: Config, w: World, step: Step, i: nat, id: nat)
    requires Allowed(cfg, w, step) && i < |w.starts| && !w.starts[i].at.Started?
    requires Do(cfg, w, step).starts[i].at == Started(id)
    ensures LiveFor(Do(cfg, w, step), w.starts[i].key, id)
    ensures Do(cfg, w, step).rows == w.rows <==> LiveFor(w, w.starts[i].key, id)
    ensures id >= |w.rows| && w.starts[i].key != "" ==>
              forall j :: 0 <= j < |w.rows| ==> !LiveFor(w, w.starts[i].key, j)
  {
    FirstLiveFinds(w.rows, w.starts[i].key);
    if step.Insert? && id >= |w.rows| {
      assert |Do(cfg, w, step).rows| == |w.rows| + 1;
    }
  }

  /** A start with a key takes the live task there is, and makes one exactly where there is
      none; one without a key always makes a task of its own. */
  lemma StartsExactly(cfg: Config, w: World, i: nat)
    requires StartAt(w, i, Selecting)
    ensures var call, selected := w.starts[i], Do(cfg, w, Select(i));
            && (selected.starts[i].at.Started? <==> call.key != "" && exists id :: LiveFor(w, call.key, id))
            && (selected.starts[i].at == Inserting <==> !selected.starts[i].at.Started?)
            && selected.rows == w.rows
            && (selected.starts[i].at == Inserting ==>
                  var inserted := Do(cfg, selected, Insert(i));
                  && inserted.rows == w.rows + [NewRow(call.key, call.maxAttempts)]
                  && inserted.starts[i].at == Started(|w.rows|))
  {
    FirstLiveFinds(w.rows, w.starts[i].key);
    var live := FirstLive(w.rows, w.starts[i].key);
    if live.Some? {
      assert LiveFor(w, w.starts[i].key, live.value);
    }
  }

  /** A start that loses the race is refused by the index, changes nothing, and takes the id
      that is live for its key when it looks again; it fails exactly when none is any more. */
  lemma LosersExactly(cfg: Config, w: World, i: nat)
    ensures StartAt(w, i, Inserting) ==>
              (Do(cfg, w, Insert(i)).starts[i].at == Reselecting
               <==> w.starts[i].key != "" && exists id :: LiveFor(w, w.starts[i].key, id))
              && (Do(cfg, w, Insert(i)).starts[i].at == Reselecting ==> Do(cfg, w, Insert(i)).rows == w.rows)
    ensures StartAt(w, i, Reselecting) ==>
              (Do(cfg, w, Reselect(i)).starts[i].at == Refused <==> !exists id :: LiveFor(w, w.starts[i].key, id))
              && (Do(cfg, w, Reselect(i)).starts[i].at != Refused ==>
                    && Do(cfg, w, Reselect(i)).starts[i].at.Started?
                    && LiveFor(w, w.starts[i].key, Do(cfg, w, Reselect(i)).starts[i].at.task))
              && Do(cfg, w, Reselect(i)).rows == w.rows
  {
    if i < |w.starts| {
      FirstLiveFinds(w.rows, w.starts[i].key);
      var live := FirstLive(w.rows, w.starts[i].key);
      if live.Some? {
        assert LiveFor(w, w.starts[i].key, live.value);
      }
    }
  }

  /** Two starts of one key that both found none: the second gets the first one's task. */
  lemma RacersShareTheTask(cfg: Config, w: World, i: nat, j: nat)
    requires i != j && StartAt(w, i, Selecting) && StartAt(w, j, Selecting)
    requires w.starts[i].key == w.starts[j].key != "" && forall id :: !LiveFor(w, w.starts[i].key, id)
    ensures var both := Do(cfg, Do(cfg, w, Select(i)), Select(j));
            && StartAt(both, i, Inserting) && StartAt(both, j, Inserting)
            && var won := Do(cfg, both, Insert(i));
               && won.starts[i].at == Started(|w.rows|) && StartAt(won, j, Inserting)
               && var lost := Do(cfg, won, Insert(j));
                  && StartAt(lost, j, Reselecting) && Do(cfg, lost, Reselect(j)).starts[j].at == Started(|w.rows|)
                  && |Do(cfg, lost, Reselect(j)).rows| == |w.rows| + 1
  {
    var key := w.starts[i].key;
    StartsExactly(cfg, w, i);
    var one := Do(cfg, w, Select(i));
    StartsExactly(cfg, one, j);
    var both := Do(cfg, one, Select(j));
    FirstLiveFinds(w.rows, key);
    assert forall id: nat :: FirstLive(w.rows, key) == Some(id) ==> LiveFor(w, key, id);
    var won := Do(cfg, both, Insert(i));
    assert won.rows[..|w.rows|] == w.rows && FirstLive(won.rows, key) == Some(|w.rows|);
    var lost := Do(cfg, won, Insert(j));
    assert lost.rows == won.rows;
  }

  /** An announcement is acted on exactly when its row is PENDING and its hold is over. */
  lemma RedeliveryIsNoOp(cfg: Config, w: World, i: nat, now: real)
    ensures Do(cfg, w, Announce(i, now)) == w
            <==> !(&& i < |w.rows| && w.rows[i].state == Pending
                   && (w.rows[i].notBefore.Some? ==> w.rows[i].notBefore.value <= now))
  {
    if i < |w.rows| && Claimable(w.rows[i], now) {
      assert |Do(cfg, w, Announce(i, now)).attempts| == |w.attempts| + 1;
    }
  }

  /** A claim makes the row RUNNING with one more attempt, owned by the worker that claimed
      it, and leaves everything else. */
  lemma ClaimsExactly(cfg: Config, w: World, i: nat, now: real)
    requires i < |w.rows| && w.rows[i].state == Pending
    requires w.rows[i].notBefore.Some? ==> w.rows[i].notBefore.value <= now
    ensures var next := Do(cfg, w, Announce(i, now));
            && next.rows[i].state == Running && next.rows[i].attempts == w.rows[i].attempts + 1
            && next.rows[i].(state := Pending, attempts := w.rows[i].attempts) == w.rows[i]
            && next.attempts == w.attempts + [Attempt(i, next.rows[i].attempts, Active)]
            && forall j :: 0 <= j < |w.rows| && j != i ==> next.rows[j] == w.rows[j]
  {
  }

  /** After a requeue no announcement gets the task claimed before its delay is over, and
      every one after that does. */
  lemma RequeueHoldsExactly(cfg: Config, w: World, a: nat, outcome: Outcome, now: real, delay: real, later: real)
    requires Owners(w) && Allowed(cfg, w, Conclude(a, outcome, now, delay))
    requires Do(cfg, w, Conclude(a, outcome, now, delay)).rows[w.attempts[a].task].state == Pending
    ensures var held, i := Do(cfg, w, Conclude(a, outcome, now, delay)), w.attempts[a].task;
            Do(cfg, held, Announce(i, later)).rows[i].state == Running <==> later >= now + delay
  {
    assert Owns(w, w.attempts[a]);
  }

  // ----- retries really happen ---------------------------------------------------------------

  /** A task goes on after an attempt exactly when its handler raised with attempts left, or
      found no responder with attempts or grace left; and then it waits for its delay. */
  lemma GoesOnExactly(cfg: Config, w: World, a: nat, outcome: Outcome, now: real, delay: real)
    requires Owners(w) && Allowed(cfg, w, Conclude(a, outcome, now, delay))
    ensures var before := w.rows[w.attempts[a].task];
            var after := Do(cfg, w, Conclude(a, outcome, now, delay)).rows[w.attempts[a].task];
            && (after.state == Pending
                <==> || (outcome == Raised && before.attempts < before.maxAttempts)
                     || (outcome == NoResponder && before.attempts < before.maxAttempts + cfg.grace))
            && (after.state == Pending ==>
                  && after.notBefore == Some(now + delay) && after.requeues == before.requeues + 1
                  && after.held == before.held + delay)
            && (after.state == Done <==> outcome == Succeeded)
            && after.state != Running
  {
    assert Owns(w, w.attempts[a]);
  }

  /** A delay can be drawn exactly when some jitter draws it. */
  lemma DrawnExactly(cfg: Config, number: nat, delay: real)
    ensures Drawn(cfg, number, delay)
            <==> exists jitter :: DrawsBelow(jitter) && delay == RetryDelay(number, cfg.base, cfg.cap, jitter)
  {
    var ceiling := RetryCeiling(number, cfg.base, cfg.cap);
    if Drawn(cfg, number, delay) {
      var jitter := (c: real) => if c == ceiling then delay else 0.0;
      assert DrawsBelow(jitter) && delay == RetryDelay(number, cfg.base, cfg.cap, jitter);
    }
  }

  /** A task whose worker died is ended by nothing that worker could still do. */
  lemma DeadWorkersEndNothing(cfg: Config, w: World, a: nat, outcome: Outcome, now: real, delay: real)
    requires Allowed(cfg, w, Crash(a))
    ensures !Allowed(cfg, Do(cfg, w, Crash(a)), Conclude(a, outcome, now, delay))
    ensures !Allowed(cfg, Do(cfg, w, Crash(a)), Crash(a)) && Do(cfg, w, Crash(a)).rows == w.rows
  {
  }

  /** One more announcement of a row that is there already is made when it is requeued, or
      again while it waits for a retry: never for a first attempt or a running one. */
  lemma AnnouncedAgainExactly(cfg: Config, w: World, step: Step, i: nat)
    requires Owners(w) && Allowed(cfg, w, step) && i < |w.rows|
    ensures var row, next := w.rows[i], Do(cfg, w, step).rows[i];
            && row.requested <= next.requested <= row.requested + 1
            && (next.requested > row.requested
                <==> || next.requeues > row.requeues
                     || (step == Reannounce(i) && row.state == Pending && row.attempts > 0))
    ensures step == Reannounce(i) ==> w.rows[i].state == Pending && w.rows[i].attempts > 0
  {
    if step.Conclude? {
      assert Owns(w, w.attempts[step.attempt]);
    }
  }

  /** And why it ended, when it did not succeed. */
  lemma EndsForExactly(cfg: Config, w: World, a: nat, outcome: Outcome, now: real, delay: real)
    requires Owners(w) && Allowed(cfg, w, Conclude(a, outcome, now, delay))
    requires Do(cfg, w, Conclude(a, outcome, now, delay)).rows[w.attempts[a].task].state == Failed
    ensures var reason := Do(cfg, w, Conclude(a, outcome, now, delay)).rows[w.attempts[a].task].reason;
            && (reason == Some(Unprocessable) <==> outcome == RefusedValues)
            && (reason == Some(NoHandler) <==> outcome == Unrouted)
            && (reason == Some(Handler) <==> outcome == Raised || outcome == NoResponder)
  {
    assert Owns(w, w.attempts[a]);
  }

  /** How often a task is claimed when every attempt ends this way. */
  function ClaimsOn(cfg: Config, maxAttempts: nat, outcome: Outcome): nat {
    match outcome
    case Raised => AtLeastOne(maxAttempts)
    case NoResponder => AtLeastOne(maxAttempts + cfg.grace)
    case _ => 1
  }

  /** One task, alone in the table, whose first n attempts ended this way. */
  ghost predicate Tried(cfg: Config, w: World, key: string, maxAttempts: nat, n: nat, outcome: Outcome) {
    && |w.rows| == 1 && w.rows[0].key == key && w.rows[0].maxAttempts == maxAttempts
    && w.rows[0].attempts == n && w.rows[0].answered == (if outcome.NoResponder? then 0 else n)
    && (Live(w.rows[0]) <==> n < ClaimsOn(cfg, maxAttempts, outcome))
    && (Live(w.rows[0]) ==> Claimable(w.rows[0], 0.0)) && (w.rows[0].state.Done? ==> outcome.Succeeded?)
  }

  lemma {:induction false} TriedSoOften(cfg: Config, key: string, maxAttempts: nat, n: nat, outcome: Outcome)
    returns (steps: seq<Step>, w: World)
    requires n <= ClaimsOn(cfg, maxAttempts, outcome)
    ensures Runs(cfg, EMPTY, steps, w) && Tried(cfg, w, key, maxAttempts, n, outcome)
    decreases n
  {
    if n == 0 {
      var called := Do(cfg, EMPTY, Call(key, maxAttempts));
      var selected := Do(cfg, called, Select(0));
      w := Do(cfg, selected, Insert(0));
      RunsStep(cfg, EMPTY, [], EMPTY, Call(key, maxAttempts));
      RunsStep(cfg, EMPTY, [] + [Call(key, maxAttempts)], called, Select(0));
      steps := [] + [Call(key, maxAttempts)] + [Select(0)];
      RunsStep(cfg, EMPTY, steps, selected, Insert(0));
      steps := steps + [Insert(0)];
    } else {
      var before;
      steps, before := TriedSoOften(cfg, key, maxAttempts, n - 1, outcome);
      var claimed := Do(cfg, before, Announce(0, 0.0));
      var a := |before.attempts|;
      RunsStep(cfg, EMPTY, steps, before, Announce(0, 0.0));
      steps := steps + [Announce(0, 0.0)];
      assert claimed.attempts[a] == Attempt(0, n, Active);
      w := Do(cfg, claimed, Conclude(a, outcome, 0.0, 0.0));
      RunsStep(cfg, EMPTY, steps, claimed, Conclude(a, outcome, 0.0, 0.0));
      steps := steps + [Conclude(a, outcome, 0.0, 0.0)];
    }
  }

  lemma {:induction false} RunsStep(cfg: Config, w: World, steps: seq<Step>, mid: World, step: Step)
    requires Runs(cfg, w, steps, mid) && Allowed(cfg, mid, step)
    ensures Runs(cfg, w, steps + [step], Do(cfg, mid, step))
    decreases |steps|
  {
    if steps == [] {
      assert [step][1..] == [];
      assert steps + [step] == [step];
    } else {
      RunsStep(cfg, Do(cfg, w, steps[0]), steps[1..], mid, step);
      assert (steps + [step])[1..] == steps[1..] + [step];
    }
  }

  /** Both budgets are used up to the last attempt: a task nobody answers is claimed
      max(1, max_attempts + grace) times before it is given up, one whose handler raises
      max(1, max_attempts) times. */
  lemma BudgetsAreReached(cfg: Config, key: string, maxAttempts: nat, outcome: Outcome)
    returns (steps: seq<Step>, w: World)
    requires outcome.Raised? || outcome.NoResponder?
    ensures Runs(cfg, EMPTY, steps, w) && |w.rows| == 1 && w.rows[0].maxAttempts == maxAttempts
    ensures w.rows[0].state == Failed && w.rows[0].failed == 1
    ensures outcome.NoResponder? ==> w.rows[0].attempts == AtLeastOne(maxAttempts + cfg.grace)
    ensures outcome.Raised? ==> w.rows[0].answered == w.rows[0].attempts == AtLeastOne(maxAttempts)
  {
    steps, w := TriedSoOften(cfg, key, maxAttempts, ClaimsOn(cfg, maxAttempts, outcome), outcome);
    RunKeepsInv(cfg, EMPTY, steps, w);
    assert RowInv(cfg, w.rows[0]);
  }

  // ----- termination -----------------------------------------------------------------------------

  /** What is left to do for a row: two steps for each attempt not yet made, one for the
      attempt in progress. */
  function Left(cfg: Config, row: Row): int {
    if !Live(row) then 0
    else 2 * (Budget(cfg, row) - row.attempts) + if row.state.Running? then 1 else 0
  }

  /** The step serves task i: a due announcement, or the end of its attempt. */
  ghost predicate Serves(w: World, step: Step, i: nat) {
    i < |w.rows| &&
    match step
    case Announce(task, now) => task == i && Claimable(w.rows[i], now)
    case Conclude(a, _, _, _) => a < |w.attempts| && w.attempts[a].task == i
    case _ => false
  }

  ghost function Served(cfg: Config, w: World, steps: seq<Step>, i: nat): nat
    decreases |steps|
  {
    if steps == [] || !Allowed(cfg, w, steps[0]) then 0
    else (if Serves(w, steps[0], i) then 1 else 0) + Served(cfg, Do(cfg, w, steps[0]), steps[1..], i)
  }

  lemma ServingShortens(cfg: Config, w: World, step: Step, i: nat)
    requires Inv(cfg, w) && Allowed(cfg, w, step) && i < |w.rows|
    ensures Left(cfg, Do(cfg, w, step).rows[i]) <= Left(cfg, w.rows[i]) - (if Serves(w, step, i) then 1 else 0)
    ensures Left(cfg, w.rows[i]) >= 0
  {
    assert RowInv(cfg, w.rows[i]);
    if step.Conclude? {
      assert Owns(w, w.attempts[step.attempt]);
    }
  }

  /** The serving steps a row has seen never exceed what it had left. */
  lemma {:induction false} ServedAtMost(cfg: Config, w: World, steps: seq<Step>, end: World, i: nat)
    requires Inv(cfg, w) && Runs(cfg, w, steps, end) && i < |w.rows|
    ensures i < |end.rows| && Served(cfg, w, steps, i) + Left(cfg, end.rows[i]) <= Left(cfg, w.rows[i])
    decreases |steps|
  {
    if steps != [] {
      StepKeepsInv(cfg, w, steps[0]);
      StepSettles(cfg, w, steps[0]);
      ServingShortens(cfg, w, steps[0], i);
      ServedAtMost(cfg, Do(cfg, w, steps[0]), steps[1..], end, i);
    }
  }

  /** A task that keeps being served ends: twice its budget of serving steps and it is DONE
      or FAILED. */
  lemma ServedTasksEnd(cfg: Config, w: World, steps: seq<Step>, end: World, i: nat)
    requires Inv(cfg, w) && Runs(cfg, w, steps, end) && i < |w.rows| &&
        w.rows[i] == NewRow(w.rows[i].key, w.rows[i].maxAttempts)
    ensures i < |end.rows| && Served(cfg, w, steps, i) <= 2 * Budget(cfg, w.rows[i])
    ensures Served(cfg, w, steps, i) == 2 * Budget(cfg, w.rows[i]) ==> !Live(end.rows[i])
  {
    ServedAtMost(cfg, w, steps, end, i);
    RunKeepsInv(cfg, w, steps, end);
    assert RowInv(cfg, end.rows[i]);
  }

  /** Every RUNNING row has an attempt that is in progress or has crashed. */
  ghost predicate Attended(w: World) {
    forall i :: 0 <= i < |w.rows| && w.rows[i].state.Running? ==> HasAttempt(w, i)
  }

  ghost predicate HasAttempt(w: World, i: nat) {
    exists a :: 0 <= a < |w.attempts| && !w.attempts[a].phase.Over? && w.attempts[a].task == i
  }

  lemma StepKeepsAttended(cfg: Config, w: World, step: Step)
    requires Owners(w) && Attended(w) && Allowed(cfg, w, step)
    ensures Attended(Do(cfg, w, step))
  {
    var end := Do(cfg, w, step);
    forall i | 0 <= i < |end.rows| && end.rows[i].state.Running? ensures HasAttempt(end, i) {
      if i < |w.rows| && w.rows[i].state.Running? {
        var a :| 0 <= a < |w.attempts| && !w.attempts[a].phase.Over? && w.attempts[a].task == i;
        if step.Conclude? {
          assert Owns(w, w.attempts[step.attempt]);
        }
        assert !end.attempts[a].phase.Over? && end.attempts[a].task == i;
      } else {
        assert end.attempts[|w.attempts|].task == i;
      }
    }
  }

  lemma {:induction false} RunKeepsAttended(cfg: Config, w: World, steps: seq<Step>, end: World)
    requires Inv(cfg, w) && Attended(w) && Runs(cfg, w, steps, end)
    ensures Attended(end)
    decreases |steps|
  {
    if steps != [] {
      StepKeepsInv(cfg, w, steps[0]);
      StepKeepsAttended(cfg, w, steps[0]);
      RunKeepsAttended(cfg, Do(cfg, w, steps[0]), steps[1..], end);
    }
  }

  /** Until it has ended a task can always be served, unless a worker died with it: an
      announcement once its hold is over, or any outcome of its attempt. */
  lemma LiveTasksCanBeServed(cfg: Config, steps: seq<Step>, w: World, i: nat)
    requires Runs(cfg, EMPTY, steps, w) && i < |w.rows| && Live(w.rows[i])
    requires forall a :: 0 <= a < |w.attempts| && w.attempts[a].task == i ==> !w.attempts[a].phase.Crashed?
    ensures exists step :: Allowed(cfg, w, step) && Serves(w, step, i)
  {
    RunKeepsInv(cfg, EMPTY, steps, w);
    RunKeepsAttended(cfg, EMPTY, steps, w);
    if w.rows[i].state.Pending? {
      var now := if w.rows[i].notBefore.None? then 0.0 else w.rows[i].notBefore.value;
      assert Allowed(cfg, w, Announce(i, now)) && Serves(w, Announce(i, now), i);
    } else {
      assert HasAttempt(w, i);
      var a :| 0 <= a < |w.attempts| && !w.attempts[a].phase.Over? && w.attempts[a].task == i;
      var step := Conclude(a, Succeeded, 0.0, 0.0);
      assert Allowed(cfg, w, step) && Serves(w, step, i);
    }
  }

  // ----- the table, statement by statement ---------------------------------------------------------

  class TaskStore {
    const cfg: Config
    var rows: seq<Row>
    var attempts: seq<Attempt>
    var starts: seq<StartCall>

    constructor (cfg: Config)
      ensures Valid() && State() == EMPTY && this.cfg == cfg
    {
      this.cfg, rows, attempts, starts := cfg, [], [], [];
    }

    ghost function State(): World
      reads this
    {
      World(rows, attempts, starts)
    }

    ghost predicate Valid()
      reads this
    {
      Inv(cfg, State())
    }

    /** The SELECT of start(): the first live row of this key. */
    method FindLive(key: string) returns (id: Option<nat>)
      ensures id == FirstLive(rows, key)
    {
      id := None;
      for i := 0 to |rows|
        invariant id == FirstLive(rows[..i], key)
      {
        assert rows[..i + 1][..i] == rows[..i];
        if id.None? && Live(rows[i]) && rows[i].key == key {
          id := Some(i);
        }
      }
      assert rows[..|rows|] == rows;
    }

    method Call(key: string, maxAttempts: nat) returns (i: nat)
      requires Valid()
      modifies this
      ensures Valid() && State() == Do(cfg, old(State()), Step.Call(key, maxAttempts))
      ensures StartAt(State(), i, Selecting)
    {
      StepKeepsInv(cfg, State(), Step.Call(key, maxAttempts));
      i := |starts|;
      starts := starts + [StartCall(key, maxAttempts, Selecting)];
    }

    /** start() up to its insert. */
    method Select(i: nat)
      requires Valid() && StartAt(State(), i, Selecting)
      modifies this
      ensures Valid() && State() == Do(cfg, old(State()), Step.Select(i))
    {
      StepKeepsInv(cfg, State(), Step.Select(i));
      var at := Inserting;
      if starts[i].key != "" {
        var live := FindLive(starts[i].key);
        if live.Some? {
          at := Started(live.value);
        }
      }
      starts := starts[i := starts[i].(at := at)];
    }

    /** The insert and its announcement; the unique index may refuse it. */
    method Insert(i: nat)
      requires Valid() && StartAt(State(), i, Inserting)
      modifies this
      ensures Valid() && State() == Do(cfg, old(State()), Step.Insert(i))
    {
      StepKeepsInv(cfg, State(), Step.Insert(i));
      var call := starts[i];
      if call.key != "" {
        var live := FindLive(call.key);
        if live.Some? {
          starts := starts[i := call.(at := Reselecting)];
          return;
        }
      }
      starts := starts[i := call.(at := Started(|rows|))];
      rows := rows + [NewRow(call.key, call.maxAttempts)];
    }

    /** The loser of the race reads the winner's id. */
    method Reselect(i: nat)
      requires Valid() && StartAt(State(), i, Reselecting)
      modifies this
      ensures Valid() && State() == Do(cfg, old(State()), Step.Reselect(i))
    {
      StepKeepsInv(cfg, State(), Step.Reselect(i));
      var live := FindLive(starts[i].key);
      starts := starts[i := starts[i].(at := if live.Some? then Started(live.value) else Refused)];
    }

    /** execute() up to the handler: the claim, or nothing. */
    method Execute(task: nat, now: real) returns (a: Option<nat>)
      requires Valid()
      modifies this
      ensures Valid() && State() == Do(cfg, old(State()), Announce(task, now))
      ensures a.Some? <==> task < |old(rows)| && Claimable(old(rows)[task], now)
      ensures a.Some? ==> ActiveAt(State(), a.value) && attempts[a.value].task == task
    {
      StepKeepsInv(cfg, State(), Announce(task, now));
      if task >= |rows| || !rows[task].state.Pending? || !Due(rows[task], now) {
        return None;
      }
      var row := rows[task];
      row := row.(state := Running);
      row := row.(attempts := row.attempts + 1);
      rows := rows[task := row];
      attempts := attempts + [Attempt(task, row.attempts, Active)];
      return Some(|attempts| - 1);
    }

    /** The rest of execute(), by the way the handler ended. */
    method Conclude(a: nat, outcome: Outcome, now: real, jitter: real -> real)
      requires Valid() && ActiveAt(State(), a) && DrawsBelow(jitter)
      modifies this
      ensures var delay := RetryDelay(old(attempts)[a].number, cfg.base, cfg.cap, jitter);
              && Drawn(cfg, old(attempts)[a].number, delay)
              && State() == Do(cfg, old(State()), Step.Conclude(a, outcome, now, delay))
      ensures Valid()
    {
      var task, number := attempts[a].task, attempts[a].number;
      ghost var delay := RetryDelay(number, cfg.base, cfg.cap, jitter);
      StepKeepsInv(cfg, State(), Step.Conclude(a, outcome, now, delay));
      attempts := attempts[a := attempts[a].(phase := Over)];
      match outcome {
        case Succeeded =>
          rows := rows[task := rows[task].(state := Done, completed := rows[task].completed + 1,
              answered := rows[task].answered + 1)];
        case RefusedValues =>
          Park(task, Unprocessable, true);
        case Unrouted =>
          Park(task, NoHandler, true);
        case NoResponder =>
          if number < rows[task].maxAttempts + cfg.grace {
            Requeue(task, number, now, jitter, false);
          } else {
            Park(task, Handler, false);
          }
        case Raised =>
          if number < rows[task].maxAttempts {
            Requeue(task, number, now, jitter, true);
          } else {
            Park(task, Handler, true);
          }
      }
    }

    /** _requeue: back to PENDING, held by the backoff, and announced again. */
    method Requeue(task: nat, number: nat, now: real, jitter: real -> real, answers: bool)
      requires task < |rows|
      modifies this`rows
      ensures var delay := RetryDelay(number, cfg.base, cfg.cap, jitter);
              rows == old(rows)[task := Requeued(old(rows)[task], now + delay, delay, answers)]
    {
      var delay := RetryDelay(number, cfg.base, cfg.cap, jitter);
      var row := rows[task];
      row := row.(state := Pending, notBefore := Some(now + delay), held := row.held + delay);
      row := row.(requested := row.requested + 1, requeues := row.requeues + 1);
      if answers {
        row := row.(answered := row.answered + 1);
      }
      rows := rows[task := row];
    }

    /** _park */
    method Park(task: nat, reason: Reason, answers: bool)
      requires task < |rows|
      modifies this`rows
      ensures rows == old(rows)[task := Parked(old(rows)[task], reason, answers)]
    {
      var row := rows[task];
      row := row.(state := Failed, reason := Some(reason));
      row := row.(failed := row.failed + 1);
      if answers {
        row := row.(answered := row.answered + 1);
      }
      rows := rows[task := row];
    }
  }
}
