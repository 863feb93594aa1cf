/** The deadline sweep beside the task engine: django/taskstore/management/commands/
    sweep_tasks.py reads the expired rows, and then fails or revives each of them without
    looking again. */
module Sweeps {
  import opened Common
  import T = Tasks

  /** A row as the sweep's query returned it. */
  datatype Look = Look(task: nat, attempts: nat, handled: bool)

  datatype World = World(tasks: T.World, looks: seq<Look>)

  /** Bury: FAILED for its deadline.  Recover: PENDING again, since a finished reply waits
      for it.  Which rows are expired and which replies wait is up to the environment. */
  datatype Step = Worker(step: T.Step) | Read(task: nat) | Bury(look: nat) | Recover(look: nat)

  const EMPTY := World(T.EMPTY, [])

  function Buried(row: T.Row): T.Row {
    row.(state := T.Failed, reason := Some(T.Deadline), failed := row.failed + 1)
  }

  function Recovered(row: T.Row): T.Row {
    row.(state := T.Pending, notBefore := None, requested := row.requested + 1)
  }

  predicate Open(w: World, look: nat) {
    look < |w.looks| && !w.looks[look].handled && w.looks[look].task < |w.tasks.rows|
  }

  /** The sweep writes to a row it read before. */
  function Swept(w: World, look: nat, row: T.Row): World
    requires Open(w, look)
  {
    w.(tasks := w.tasks.(rows := w.tasks.rows[w.looks[look].task := row]),
       looks := w.looks[look := w.looks[look].(handled := true)])
  }

  function RowOf(w: World, look: nat): T.Row
    requires Open(w, look)
  {
    w.tasks.rows[w.looks[look].task]
  }

  /** A write that would make a second live row of a key is refused by the unique index. */
  ghost predicate Allowed(cfg: T.Config, w: World, step: Step) {
    match step
    case Worker(s) => T.Allowed(cfg, w.tasks, s) && T.Deduplicated(T.Do(cfg, w.tasks, s))
    case Read(task) => task < |w.tasks.rows| && T.Live(w.tasks.rows[task])
    case Bury(i) => Open(w, i)
    case Recover(i) =>
      && Open(w, i) && w.looks[i].attempts < RowOf(w, i).maxAttempts
      && T.Deduplicated(Swept(w, i, Recovered(RowOf(w, i))).tasks)
  }

  ghost function Do(cfg: T.Config, w: World, step: Step): World
    requires Allowed(cfg, w, step)
  {
    match step
    case Worker(s) => w.(tasks := T.Do(cfg, w.tasks, s))
    case Read(task) => w.(looks := w.looks + [Look(task, w.tasks.rows[task].attempts, false)])
    case Bury(i) => Swept(w, i, Buried(RowOf(w, i)))
    case Recover(i) => Swept(w, i, Recovered(RowOf(w, i)))
  }

  ghost predicate Runs(cfg: T.Config, w: World, steps: seq<Step>)
    decreases |steps|
  {
    steps == [] || (Allowed(cfg, w, steps[0]) && Runs(cfg, Do(cfg, w, steps[0]), steps[1..]))
  }

  // ----- harm and interference ---------------------------------------------------------------

  ghost predicate Attended(w: World, task: nat) {
    exists a :: 0 <= a < |w.tasks.attempts| && w.tasks.attempts[a].phase.Active? && w.tasks.attempts[a].task == task
  }

  /** The sweep writes to a row that has ended since it was read, or that a worker has. */
  ghost predicate Interferes(w: World, step: Step) {
    (step.Bury? || step.Recover?) && Open(w, step.look) &&
    (!T.Live(RowOf(w, step.look)) || Attended(w, w.looks[step.look].task))
  }

  ghost predicate NeverInterferes(cfg: T.Config, w: World, steps: seq<Step>)
    requires Runs(cfg, w, steps)
    decreases |steps|
  {
    steps == [] || (!Interferes(w, steps[0]) && NeverInterferes(cfg, Do(cfg, w, steps[0]), steps[1..]))
  }

  /** No two workers have the same row. */
  ghost predicate OneOwner(w: World) {
    var attempts := w.tasks.attempts;
    forall a, b :: 0 <= a < b < |attempts| && attempts[a].phase.Active? && attempts[b].phase.Active? ==>
      attempts[a].task != attempts[b].task
  }

  /** A row that had ended changed, or a row has two owners. */
  ghost predicate Harm(w: World, next: World) {
    !T.Settled(w.tasks, next.tasks) || !OneOwner(next)
  }

  ghost predicate Harms(cfg: T.Config, w: World, steps: seq<Step>)
    requires Runs(cfg, w, steps)
    decreases |steps|
  {
    steps != [] && (Harm(w, Do(cfg, w, steps[0])) || Harms(cfg, Do(cfg, w, steps[0]), steps[1..]))
  }

  predicate OnlyWorkers(steps: seq<Step>) {
    forall i :: 0 <= i < |steps| ==> steps[i].Worker?
  }

  /** From here the workers alone, without any sweep, can come to harm. */
  ghost predicate Damaged(cfg: T.Config, w: World) {
    exists steps :: OnlyWorkers(steps) && Runs(cfg, w, steps) && Harms(cfg, w, steps)
  }

  /** No step of the run does harm or sets one up. */
  ghost predicate Unharmed(cfg: T.Config, w: World, steps: seq<Step>)
    requires Runs(cfg, w, steps)
    decreases |steps|
  {
    && !Damaged(cfg, w)
    && (steps == [] || (var next := Do(cfg, w, steps[0]);
        !Harm(w, next) && Unharmed(cfg, next, steps[1..])))
  }

  // ----- the invariant -----------------------------------------------------------------------

  /** A worker's row is RUNNING, and only its. */
  ghost predicate Inv(w: World) {
    && OneOwner(w) && T.Deduplicated(w.tasks)
    && (forall a :: 0 <= a < |w.tasks.attempts| && w.tasks.attempts[a].phase.Active? ==>
          Has(w.tasks, w.tasks.attempts[a].task))
  }

  predicate Has(w: T.World, task: nat) {
    task < |w.rows| && w.rows[task].state.Running?
  }

  lemma StepKeepsInv(cfg: T.Config, w: World, step: Step)
    requires Inv(w) && Allowed(cfg, w, step) && !Interferes(w, step)
    ensures Inv(Do(cfg, w, step)) && !Harm(w, Do(cfg, w, step))
  {
    match step {
      case Worker(s) => WorkerKeepsInv(cfg, w, s);
      case Read(_) =>
      case Bury(i) => SweepKeepsInv(w, i, Buried(RowOf(w, i)));
      case Recover(i) => SweepKeepsInv(w, i, Recovered(RowOf(w, i)));
    }
  }

  lemma WorkerKeepsInv(cfg: T.Config, w: World, s: T.Step)
    requires Inv(w) && Allowed(cfg, w, Worker(s))
    ensures Inv(Do(cfg, w, Worker(s))) && !Harm(w, Do(cfg, w, Worker(s)))
  {
    var end := Do(cfg, w, Worker(s));
    if s.Conclude? {
      assert Has(w.tasks, w.tasks.attempts[s.attempt].task);
    }
    forall a | 0 <= a < |end.tasks.attempts| && end.tasks.attempts[a].phase.Active?
      ensures Has(end.tasks, end.tasks.attempts[a].task)
    {
      if a < |w.tasks.attempts| {
        assert Has(w.tasks, w.tasks.attempts[a].task);
      }
    }
  }

  lemma SweepKeepsInv(w: World, i: nat, row: T.Row)
    requires Inv(w) && Open(w, i) && T.Live(RowOf(w, i)) && !Attended(w, w.looks[i].task)
    requires row.key == RowOf(w, i).key && row.maxAttempts == RowOf(w, i).maxAttempts
    ensures Inv(Swept(w, i, row)) && !Harm(w, Swept(w, i, row))
  {
    var end := Swept(w, i, row);
    assert forall j :: 0 <= j < |end.tasks.rows| && T.Live(end.tasks.rows[j]) ==> T.Live(w.tasks.rows[j]);
    forall a | 0 <= a < |end.tasks.attempts| && end.tasks.attempts[a].phase.Active?
      ensures Has(end.tasks, end.tasks.attempts[a].task)
    {
      assert Has(w.tasks, w.tasks.attempts[a].task);
    }
  }

  lemma {:induction false} WorkersAreHarmless(cfg: T.Config, w: World, steps: seq<Step>)
    requires Inv(w) && OnlyWorkers(steps) && Runs(cfg, w, steps)
    ensures !Harms(cfg, w, steps)
    decreases |steps|
  {
    if steps != [] {
      StepKeepsInv(cfg, w, steps[0]);
      WorkersAreHarmless(cfg, Do(cfg, w, steps[0]), steps[1..]);
    }
  }

  // ----- what an interfering sweep leads to --------------------------------------------------

  lemma HarmInOne(cfg: T.Config, w: World, step: Step)
    requires step.Worker? && Allowed(cfg, w, step) && Harm(w, Do(cfg, w, step))
    ensures Damaged(cfg, w)
  {
    var steps := [step];
    assert steps[1..] == [];
    assert Runs(cfg, w, steps) && Harms(cfg, w, steps) && OnlyWorkers(steps);
  }

  /** The worker whose row was buried finishes it all the same. */
  lemma BuriedUnderAWorker(cfg: T.Config, w: World, look: nat, a: nat)
    requires Inv(w) && Open(w, look) && T.ActiveAt(w.tasks, a) && w.tasks.attempts[a].task == w.looks[look].task
    ensures Damaged(cfg, Do(cfg, w, Bury(look)))
  {
    var next := Do(cfg, w, Bury(look));
    var t := w.looks[look].task;
    var step := T.Conclude(a, T.Succeeded, 0.0, 0.0);
    assert T.Allowed(cfg, next.tasks, step);
    var end := T.Do(cfg, next.tasks, step);
    assert end.rows[t].state.Done? && next.tasks.rows[t].state.Failed?;
    assert forall i :: 0 <= i < |end.rows| && T.Live(end.rows[i]) ==> end.rows[i] == w.tasks.rows[i];
    assert !T.Settled(next.tasks, end);
    HarmInOne(cfg, next, Worker(step));
  }

  /** A row that was revived under its worker is claimed by a second one. */
  lemma RecoveredUnderAWorker(cfg: T.Config, w: World, look: nat, a: nat)
    requires Inv(w) && Allowed(cfg, w, Recover(look))
    requires T.ActiveAt(w.tasks, a) && w.tasks.attempts[a].task == w.looks[look].task
    ensures Damaged(cfg, Do(cfg, w, Recover(look)))
  {
    var next := Do(cfg, w, Recover(look));
    var t := w.looks[look].task;
    var step := T.Announce(t, 0.0);
    var end := T.Do(cfg, next.tasks, step);
    assert end.attempts[|w.tasks.attempts|].task == t && end.attempts[a].task == t;
    assert forall i :: 0 <= i < |end.rows| ==>
        (T.Live(end.rows[i]) <==> T.Live(next.tasks.rows[i])) && end.rows[i].key == next.tasks.rows[i].key;
    HarmInOne(cfg, next, Worker(step));
  }

  lemma InterferenceHarms(cfg: T.Config, w: World, step: Step)
    requires Inv(w) && Allowed(cfg, w, step) && Interferes(w, step)
    ensures Harm(w, Do(cfg, w, step)) || Damaged(cfg, Do(cfg, w, step))
  {
    var t := w.looks[step.look].task;
    if !T.Live(RowOf(w, step.look)) {
      assert Do(cfg, w, step).tasks.rows[t] != w.tasks.rows[t];
    } else {
      var a :| 0 <= a < |w.tasks.attempts| && w.tasks.attempts[a].phase.Active? && w.tasks.attempts[a].task == t;
      if step.Bury? {
        BuriedUnderAWorker(cfg, w, step.look, a);
      } else {
        RecoveredUnderAWorker(cfg, w, step.look, a);
      }
    }
  }

  // ----- the exact result --------------------------------------------------------------------

  /** Over every run of starts, workers and sweeps: an ended row is changed, or a row gets
      two owners, or the workers are left on the way to it, exactly when the sweep writes to
      a row that has ended since it was read or that a worker has. */
  lemma {:induction false} SweepsHarmExactly(cfg: T.Config, w: World, steps: seq<Step>)
    requires Inv(w) && Runs(cfg, w, steps)
    ensures NeverInterferes(cfg, w, steps) <==> Unharmed(cfg, w, steps)
    decreases |steps|
  {
    if Damaged(cfg, w) {
      var more :| OnlyWorkers(more) && Runs(cfg, w, more) && Harms(cfg, w, more);
      WorkersAreHarmless(cfg, w, more);
      assert false;
    }
    if steps != [] {
      var next := Do(cfg, w, steps[0]);
      if Interferes(w, steps[0]) {
        InterferenceHarms(cfg, w, steps[0]);
        assert steps[1..] == [] || Allowed(cfg, next, steps[1..][0]);
      } else {
        StepKeepsInv(cfg, w, steps[0]);
        SweepsHarmExactly(cfg, next, steps[1..]);
      }
    }
  }

  /** From the empty table. */
  lemma SweepsAreHarmlessExactly(cfg: T.Config, steps: seq<Step>)
    requires Runs(cfg, EMPTY, steps)
    ensures NeverInterferes(cfg, EMPTY, steps) <==> Unharmed(cfg, EMPTY, steps)
  {
    SweepsHarmExactly(cfg, EMPTY, steps);
  }

  // ----- the retry budget under sweeps -------------------------------------------------------

  /** No row was claimed more often than it may, and none waits for a claim beyond that. */
  ghost predicate WithinBudget(cfg: T.Config, w: World) {
    forall i :: 0 <= i < |w.tasks.rows| ==> RowWithin(cfg, w.tasks.rows[i])
  }

  predicate RowWithin(cfg: T.Config, row: T.Row) {
    row.attempts <= T.Budget(cfg, row) && (row.state.Pending? ==> row.attempts < T.Budget(cfg, row))
  }

  /** A worker knows how often its row was claimed. */
  ghost predicate Numbered(w: World) {
    forall a :: 0 <= a < |w.tasks.attempts| && w.tasks.attempts[a].phase.Active? ==>
      Has(w.tasks, w.tasks.attempts[a].task)
      && w.tasks.rows[w.tasks.attempts[a].task].attempts == w.tasks.attempts[a].number
  }

  /** The sweep revives only rows that may still be claimed. */
  ghost predicate RevivesInBudget(cfg: T.Config, w: World, steps: seq<Step>)
    requires Runs(cfg, w, steps)
    decreases |steps|
  {
    steps == [] ||
    (&& (steps[0].Recover? ==> RowOf(w, steps[0].look).attempts < T.Budget(cfg, RowOf(w, steps[0].look)))
     && RevivesInBudget(cfg, Do(cfg, w, steps[0]), steps[1..]))
  }

  ghost predicate AlwaysWithinBudget(cfg: T.Config, w: World, steps: seq<Step>)
    requires Runs(cfg, w, steps)
    decreases |steps|
  {
    WithinBudget(cfg, w) && (steps == [] || AlwaysWithinBudget(cfg, Do(cfg, w, steps[0]), steps[1..]))
  }

  lemma StepKeepsNumbers(cfg: T.Config, w: World, step: Step)
    requires Inv(w) && Numbered(w) && Allowed(cfg, w, step) && !Interferes(w, step)
    ensures Numbered(Do(cfg, w, step))
  {
    var end := Do(cfg, w, step);
    forall a | 0 <= a < |end.tasks.attempts| && end.tasks.attempts[a].phase.Active?
      ensures Has(end.tasks, end.tasks.attempts[a].task)
      ensures end.tasks.rows[end.tasks.attempts[a].task].attempts == end.tasks.attempts[a].number
    {
      if a < |w.tasks.attempts| {
        assert Has(w.tasks, w.tasks.attempts[a].task);
      }
    }
  }

  lemma StepWithinBudget(cfg: T.Config, w: World, step: Step)
    requires Inv(w) && Numbered(w) && WithinBudget(cfg, w) && Allowed(cfg, w, step)
    ensures WithinBudget(cfg, Do(cfg, w, step))
            <==> (step.Recover? ==> RowOf(w, step.look).attempts < T.Budget(cfg, RowOf(w, step.look)))
  {
    var end := Do(cfg, w, step);
    if step.Worker? && step.step.Conclude? {
      assert Has(w.tasks, w.tasks.attempts[step.step.attempt].task);
    }
    forall i | 0 <= i < |end.tasks.rows| && (step.Recover? ==> i != w.looks[step.look].task)
      ensures RowWithin(cfg, end.tasks.rows[i])
    {
      if i < |w.tasks.rows| {
        assert RowWithin(cfg, w.tasks.rows[i]);
      }
    }
    if step.Recover? {
      var row := end.tasks.rows[w.looks[step.look].task];
      assert RowWithin(cfg, row) <==> row.attempts < T.Budget(cfg, row);
    }
  }

  /** With sweeps that do not interfere a row is claimed within its budget, and waits for a
      claim only within it, exactly when no row is revived that has used its budget up since
      it was read. */
  lemma {:induction false} SweepsKeepBudgetExactly(cfg: T.Config, w: World, steps: seq<Step>)
    requires Inv(w) && Numbered(w) && WithinBudget(cfg, w)
    requires Runs(cfg, w, steps) && NeverInterferes(cfg, w, steps)
    ensures AlwaysWithinBudget(cfg, w, steps) <==> RevivesInBudget(cfg, w, steps)
    decreases |steps|
  {
    if steps != [] {
      var next := Do(cfg, w, steps[0]);
      StepKeepsInv(cfg, w, steps[0]);
      StepKeepsNumbers(cfg, w, steps[0]);
      StepWithinBudget(cfg, w, steps[0]);
      if WithinBudget(cfg, next) {
        SweepsKeepBudgetExactly(cfg, next, steps[1..]);
      }
    }
  }

  // ----- the command -------------------------------------------------------------------------

  /** The rows the query finds: those not ended whose deadline is over. */
  function Found(rows: seq<T.Row>, over: seq<bool>, n: nat): seq<Look>
    requires n <= |rows| == |over|
  {
    if n == 0 then []
    else Found(rows, over, n - 1)
         + (if T.Live(rows[n - 1]) && over[n - 1] then [Look(n - 1, rows[n - 1].attempts, false)] else [])
  }

  /** What the query finds could have been read row by row. */
  lemma {:induction false} FoundIsReads(cfg: T.Config, w: World, over: seq<bool>, n: nat) returns (steps: seq<Step>)
    requires n <= |w.tasks.rows| == |over|
    ensures Runs(cfg, w, steps) && (forall i :: 0 <= i < |steps| ==> steps[i].Read?)
    ensures After(cfg, w, steps) == w.(looks := w.looks + Found(w.tasks.rows, over, n))
    decreases n
  {
    if n == 0 {
      steps := [];
      assert w.looks + [] == w.looks;
    } else {
      steps := FoundIsReads(cfg, w, over, n - 1);
      if T.Live(w.tasks.rows[n - 1]) && over[n - 1] {
        RunsOne(cfg, w, steps, Read(n - 1));
        steps := steps + [Read(n - 1)];
      }
    }
  }

  ghost function After(cfg: T.Config, w: World, steps: seq<Step>): World
    requires Runs(cfg, w, steps)
    decreases |steps|
  {
    if steps == [] then w else After(cfg, Do(cfg, w, steps[0]), steps[1..])
  }

  lemma {:induction false} RunsOne(cfg: T.Config, w: World, steps: seq<Step>, step: Step)
    requires Runs(cfg, w, steps) && Allowed(cfg, After(cfg, w, steps), step)
    ensures Runs(cfg, w, steps + [step])
    ensures After(cfg, w, steps + [step]) == Do(cfg, After(cfg, w, steps), step)
    decreases |steps|
  {
    if steps == [] {
      assert [step][1..] == [];
      assert steps + [step] == [step];
    } else {
      RunsOne(cfg, Do(cfg, w, steps[0]), steps[1..], step);
      assert (steps + [step])[1..] == steps[1..] + [step];
    }
  }

  datatype Turn = Revived | Failed | Refused

  predicate Rivals(rows: seq<T.Row>, i: nat, task: nat)
    requires i < |rows| && task < |rows|
  {
    i != task && T.Live(rows[i]) && rows[i].key == rows[task].key != ""
  }

  /** The unique index refuses to revive a row when another of its key is live. */
  lemma RefusedExactly(w: World, look: nat)
    requires Open(w, look) && T.Deduplicated(w.tasks)
    ensures !T.Deduplicated(Swept(w, look, Recovered(RowOf(w, look))).tasks)
            <==> exists i :: 0 <= i < |w.tasks.rows| && Rivals(w.tasks.rows, i, w.looks[look].task)
  {
    var task := w.looks[look].task;
    var rows := Swept(w, look, Recovered(RowOf(w, look))).tasks.rows;
    if i: nat :| i < |w.tasks.rows| && Rivals(w.tasks.rows, i, task) {
      assert T.Live(rows[i]) && T.Live(rows[task]) && rows[i].key == rows[task].key;
    } else {
      forall i, j | 0 <= i < j < |rows| && T.Live(rows[i]) && T.Live(rows[j]) && rows[i].key == rows[j].key
        ensures rows[i].key == ""
      {
        assert !Rivals(w.tasks.rows, if i == task then j else i, task);
      }
    }
  }

  /** A row just read may be failed, and revived exactly when it had an attempt left and no
      other row of its key is live; and each read row is dealt with once. */
  lemma DealtWithOnce(cfg: T.Config, w: World, task: nat)
    requires Allowed(cfg, w, Read(task)) && T.Deduplicated(w.tasks)
    ensures var read, i := Do(cfg, w, Read(task)), |w.looks|;
            && Allowed(cfg, read, Bury(i))
            && (Allowed(cfg, read, Recover(i))
                <==> && w.tasks.rows[task].attempts < w.tasks.rows[task].maxAttempts
                     && !exists j :: 0 <= j < |w.tasks.rows| && Rivals(w.tasks.rows, j, task))
            && !Open(Do(cfg, read, Bury(i)), i)
            && (Allowed(cfg, read, Recover(i)) ==> !Open(Do(cfg, read, Recover(i)), i))
  {
    RefusedExactly(Do(cfg, w, Read(task)), |w.looks|);
  }

  /** A failed row says why, has one more failed event, and is claimed by no announcement; a
      revived one has one more announcement and is claimed by the next, whenever it comes. */
  lemma SweptRowsGoOn(cfg: T.Config, w: World, i: nat, now: real)
    requires Open(w, i)
    ensures var t := w.looks[i].task;
            && (var buried := Do(cfg, w, Bury(i)).tasks;
                && buried.rows[t].reason == Some(T.Deadline) && buried.rows[t].failed == RowOf(w, i).failed + 1
                && T.Do(cfg, buried, T.Announce(t, now)) == buried)
            && (Allowed(cfg, w, Recover(i)) ==>
                  var revived := Do(cfg, w, Recover(i)).tasks;
                  && revived.rows[t].requested == RowOf(w, i).requested + 1
                  && T.Do(cfg, revived, T.Announce(t, now)).rows[t].state == T.Running
                  && T.Do(cfg, revived, T.Announce(t, now)).rows[t].attempts == RowOf(w, i).attempts + 1)
  {
  }

  class Command {
    const cfg: T.Config
    var tasks: T.World
    var looks: seq<Look>

    constructor (cfg: T.Config, tasks: T.World)
      ensures State() == World(tasks, [])
    {
      this.cfg, this.tasks, looks := cfg, tasks, [];
    }

    ghost function State(): World
      reads this
    {
      World(tasks, looks)
    }

    /** The query for expired rows. */
    method FindExpired(over: seq<bool>)
      requires |over| == |tasks.rows|
      modifies this
      ensures State() == old(State()).(looks := old(looks) + Found(old(tasks).rows, over, |old(tasks).rows|))
    {
      for i := 0 to |tasks.rows|
        invariant tasks == old(tasks)
        invariant looks == old(looks) + Found(tasks.rows, over, i)
      {
        if T.Live(tasks.rows[i]) && over[i] {
          looks := looks + [Look(i, tasks.rows[i].attempts, false)];
        }
      }
    }

    /** Another row of the same key is live. */
    method Clashes(task: nat) returns (clash: bool)
      requires task < |tasks.rows|
      ensures clash <==> exists i :: 0 <= i < |tasks.rows| && Rivals(tasks.rows, i, task)
    {
      for i := 0 to |tasks.rows|
        invariant forall j :: 0 <= j < i ==> !Rivals(tasks.rows, j, task)
      {
        if i != task && T.Live(tasks.rows[i]) && tasks.rows[i].key == tasks.rows[task].key != "" {
          assert Rivals(tasks.rows, i, task);
          return true;
        }
      }
      return false;
    }

    /** One turn of the loop: a row whose finished reply waits gets its attempt back when it
        has attempts left, any other is failed.  The unique index may refuse the first. */
    method Handle(i: nat, waiting: bool) returns (t: Turn)
      requires Open(State(), i) && T.Deduplicated(tasks)
      modifies this
      ensures t.Failed? <==> !(waiting && old(looks[i].attempts) < old(RowOf(State(), i).maxAttempts))
      ensures t.Refused? ==> !Allowed(cfg, old(State()), Recover(i)) && State() == old(State())
      ensures t.Revived? ==> Allowed(cfg, old(State()), Recover(i)) && State() == Do(cfg, old(State()), Recover(i))
      ensures t.Failed? ==> State() == Do(cfg, old(State()), Bury(i))
    {
      var task := looks[i].task;
      var row := tasks.rows[task];
      if waiting && looks[i].attempts < row.maxAttempts {
        var clash := Clashes(task);
        RefusedExactly(State(), i);
        if clash {
          return Refused;
        }
        row := row.(state := T.Pending, notBefore := None, requested := row.requested + 1);
        t := Revived;
      } else {
        row := row.(state := T.Failed, reason := Some(T.Deadline), failed := row.failed + 1);
        t := Failed;
      }
      tasks := tasks.(rows := tasks.rows[task := row]);
      looks := looks[i := looks[i].(handled := true)];
    }
  }
}
