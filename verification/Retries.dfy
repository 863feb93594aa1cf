/** Retried tasks in an environment that keeps its promises: every kind of failure a worker
    can meet is still there, and no recorded step is ever run again. */
module Retries {
  import opened Common
  import opened Overflow
  import opened References
  import opened Checkpoints

  // ----- what is asked of the environment ----------------------------------------------------

  /** The entry resume() would have to fetch from the store. */
  predicate Fetches(env: Env, w: World)
    requires MidRun(env, w)
  {
    var name := env.plan.names[|w.values|];
    name in w.memory && ObjectOf(env.codec, w.memory[name]) != {}
  }

  /** The store answers, keeps this task's objects and gives a large value a name of its own
      that the reader accepts; no step returns None, a large value comes back from its text,
      a small one is not shaped like a reference; and a worker that dies while the ledger is
      being dropped has not deleted anything yet.  Requeues, parks, crashes in the handler,
      revivals and lost row writes may come at any time. */
  predicate Reliable(env: Env, w: World, step: Step) {
    match step
    case Invoke(readable, _, _) => MidRun(env, w) && (Fetches(env, w) ==> readable)
    case Respond(value) => value != JNull
    case Record(key, _, _) =>
      && w.got.Some? && Recordable(env, w, w.got.value, key)
      && (key.Some? ==> CheckedKey(env.cfg.prefix, key.value))
    case Crash => w.phase.Finishing? ==> Referenced(env.codec, w.row) <= w.objects.Keys
    case PutByOther(object_, _) => object_ !in w.used
    case Lose(object_) => object_ !in w.used
    case _ => true
  }

  ghost predicate AllReliable(env: Env, w: World, steps: seq<Step>)
    decreases |steps|
  {
    steps == [] ||
    (Allowed(env, w, steps[0]) && Reliable(env, w, steps[0]) && AllReliable(env, Do(env, w, steps[0]), steps[1..]))
  }

  // ----- the invariant -----------------------------------------------------------------------

  /** The recorded steps are the first ones of the plan. */
  predicate IsPrefix(env: Env, ledger: Ledger) {
    forall j: nat, k: nat :: j < k < |env.plan.names| && env.plan.names[k] in ledger ==> env.plan.names[j] in ledger
  }

  /** The entry refers to this task's objects only and reads back while they are there. */
  predicate Sound(env: Env, w: World, entry: Json) {
    && ObjectOf(env.codec, entry) <= w.used
    && (ObjectOf(env.codec, entry) <= w.objects.Keys ==>
          CheckpointValue(env.cfg, env.codec, w.objects, entry, true, JNull) != JNull)
  }

  predicate AllSound(env: Env, w: World, ledger: Ledger) {
    forall k: nat :: k < |env.plan.names| && env.plan.names[k] in ledger ==> Sound(env, w, ledger[env.plan.names[k]])
  }

  predicate AllThere(env: Env, w: World, ledger: Ledger) {
    forall k: nat :: k < |env.plan.names| && env.plan.names[k] in ledger ==>
      ObjectOf(env.codec, ledger[env.plan.names[k]]) <= w.objects.Keys
  }

  predicate LedgerInv(env: Env, w: World, ledger: Ledger) {
    && IsPrefix(env, ledger) && AllSound(env, w, ledger)
    && (!w.phase.Finishing? ==> AllThere(env, w, ledger))
  }

  /** What the attempt has is in its dict; the step it called for is not. */
  predicate AttemptInv(env: Env, w: World) {
    && LedgerInv(env, w, w.memory) && w.row.Keys <= w.memory.Keys && |w.values| <= |env.plan.names|
    && (forall k: nat :: k < |w.values| ==> env.plan.names[k] in w.memory)
    && (w.invoked ==> MidRun(env, w) && env.plan.names[|w.values|] !in w.memory)
    && (w.got.Some? ==> w.invoked && w.got.value != JNull)
    && (w.phase.Finishing? ==> |w.values| == |env.plan.names|)
  }

  predicate RInv(env: Env, w: World) {
    && LedgerInv(env, w, w.row)
    && (w.phase.Working? || w.phase.Finishing? ==> AttemptInv(env, w))
  }

  /** With the ledger in order, a step is called for exactly when it has no entry. */
  lemma CalledExactly(env: Env, w: World, readable: bool)
    requires RInv(env, w) && MidRun(env, w) && !w.invoked && (Fetches(env, w) ==> readable)
    ensures Allowed(env, w, Invoke(readable, JNull, false)) <==> env.plan.names[|w.values|] !in w.memory
  {
    var name := env.plan.names[|w.values|];
    if name in w.memory {
      assert Sound(env, w, w.memory[name]);
    }
  }

  /** Then nothing after it has one either: every reliable step is a safe one. */
  lemma ReliableIsSafe(env: Env, w: World, step: Step)
    requires RInv(env, w) && Allowed(env, w, step) && Reliable(env, w, step)
    ensures Safe(env, w, step)
  {
    if step.Invoke? {
      CalledExactly(env, w, step.readable);
    }
  }

  // ----- each step keeps it ------------------------------------------------------------------

  /** The store lost nothing of this task and overwrote nothing of it. */
  predicate StoreKeeps(w: World, end: World) {
    && w.used <= end.used
    && forall key :: key in w.used && key in w.objects ==> key in end.objects && end.objects[key] == w.objects[key]
  }

  lemma SoundStays(env: Env, w: World, end: World, entry: Json)
    requires StoreKeeps(w, end) && Sound(env, w, entry) && ObjectOf(env.codec, entry) <= w.objects.Keys
    ensures Sound(env, end, entry) && ObjectOf(env.codec, entry) <= end.objects.Keys
  {
    var ref := ReferenceIn(entry);
    if ref.Some? && ref.value != map[] {
      assert TextOf(env.codec, ref.value, "key") in ObjectOf(env.codec, entry);
    }
  }

  lemma LedgerStays(env: Env, w: World, end: World, ledger: Ledger)
    requires LedgerInv(env, w, ledger) && StoreKeeps(w, end) && !w.phase.Finishing?
    ensures LedgerInv(env, end, ledger)
  {
    forall k: nat | k < |env.plan.names| && env.plan.names[k] in ledger
      ensures Sound(env, end, ledger[env.plan.names[k]])
      ensures ObjectOf(env.codec, ledger[env.plan.names[k]]) <= end.objects.Keys
    {
      SoundStays(env, w, end, ledger[env.plan.names[k]]);
    }
  }

  /** Losing objects leaves what is still there as it was. */
  lemma SoundFades(env: Env, w: World, end: World, entry: Json)
    requires Sound(env, w, entry) && w.used <= end.used
    requires forall key :: key in w.used && key in end.objects ==>
               key in w.objects && end.objects[key] == w.objects[key]
    ensures Sound(env, end, entry)
  {
    var ref := ReferenceIn(entry);
    if ref.Some? && ref.value != map[] {
      assert TextOf(env.codec, ref.value, "key") in ObjectOf(env.codec, entry);
    }
  }

  /** The entry just made. */
  lemma NewEntryIsSound(env: Env, w: World, step: Step)
    requires step.Record? && Allowed(env, w, step) && Reliable(env, w, step) && w.got.value != JNull
    ensures var end := Do(env, w, step);
            var entry := Entry(env, w.got.value, env.plan.names[|w.values|], step.key, step.expires);
            Sound(env, end, entry) && ObjectOf(env.codec, entry) <= end.objects.Keys
  {
    var end, v, name := Do(env, w, step), w.got.value, env.plan.names[|w.values|];
    if step.key.Some? {
      var key := step.key.value;
      RefFields(env.codec, env.cfg.store.value, key, |env.codec.dumps(v)|, env.codec.sha(env.codec.dumps(v)),
                ObjectName(env, name), Checkpoint, step.expires);
      ReferencedCheckpointReadsBack(env.cfg, env.codec, end.objects, key, v, ObjectName(env, name), step.expires,
                                    JNull);
    }
  }

  lemma RecordKeeps(env: Env, w: World, step: Step)
    requires ValidPlan(env.plan) && RInv(env, w) && step.Record? && Allowed(env, w, step) && Reliable(env, w, step)
    ensures RInv(env, Do(env, w, step))
  {
    var end, n := Do(env, w, step), |w.values|;
    NewEntryIsSound(env, w, step);
    LedgerStays(env, w, end, w.row);
    LedgerStays(env, w, end, w.memory);
    assert forall k: nat :: k < |env.plan.names| && k != n ==> env.plan.names[k] != env.plan.names[n];
  }

  lemma InvokeKeeps(env: Env, w: World, step: Step)
    requires ValidPlan(env.plan) && RInv(env, w) && step.Invoke? && Allowed(env, w, step) && Reliable(env, w, step)
    ensures RInv(env, Do(env, w, step))
  {
    var end := Do(env, w, step);
    CalledExactly(env, w, step.readable);
    CallsAreNoStep(env, w.memory, step.calls);
    LedgerStays(env, w, end, w.row);
    LedgerStays(env, w, end, w.memory);
  }

  /** The handler's finish: what it deletes may be what the row refers to. */
  lemma FinishKeeps(env: Env, w: World, step: Step)
    requires RInv(env, w) && Allowed(env, w, step) && Reliable(env, w, step)
    requires step.Clear? || (step.Crash? && w.phase.Finishing?)
             || (w.phase.Finishing? && (step.PutByOther? || step.Lose?))
    ensures RInv(env, Do(env, w, step))
  {
    var end := Do(env, w, step);
    forall k: nat | k < |env.plan.names| && env.plan.names[k] in w.row
      ensures Sound(env, end, w.row[env.plan.names[k]])
      ensures step.Crash? ==> ObjectOf(env.codec, w.row[env.plan.names[k]]) <= end.objects.Keys
    {
      SoundFades(env, w, end, w.row[env.plan.names[k]]);
    }
    forall k: nat | k < |env.plan.names| && env.plan.names[k] in w.memory
      ensures Sound(env, end, w.memory[env.plan.names[k]])
    {
      SoundFades(env, w, end, w.memory[env.plan.names[k]]);
    }
  }

  lemma StepKeepsRInv(env: Env, w: World, step: Step)
    requires ValidPlan(env.plan) && RInv(env, w) && Allowed(env, w, step) && Reliable(env, w, step)
    ensures RInv(env, Do(env, w, step))
  {
    var end := Do(env, w, step);
    match step {
      case Invoke(_, _, _) => InvokeKeeps(env, w, step);
      case Record(_, _, _) => RecordKeeps(env, w, step);
      case Clear(_) => FinishKeeps(env, w, step);
      case Commit =>
      case _ =>
        if w.phase.Finishing? {
          FinishKeeps(env, w, step);
        } else {
          LedgerStays(env, w, end, w.row);
          if w.phase.Working? {
            LedgerStays(env, w, end, w.memory);
          }
        }
    }
  }

  // ----- whole runs --------------------------------------------------------------------------

  lemma {:induction false} RunKeepsRInv(env: Env, w: World, steps: seq<Step>, end: World)
    requires ValidPlan(env.plan) && RInv(env, w) && Runs(env, w, steps, end) && AllReliable(env, w, steps)
    ensures RInv(env, end)
    decreases |steps|
  {
    if steps != [] {
      StepKeepsRInv(env, w, steps[0]);
      RunKeepsRInv(env, Do(env, w, steps[0]), steps[1..], end);
    }
  }

  /** In such an environment no run ever calls for a step that has a checkpoint, so none
      runs a step below one that reads back. */
  lemma {:induction false} AllReliableIsAllSafe(env: Env, w: World, steps: seq<Step>, end: World)
    requires ValidPlan(env.plan) && RInv(env, w) && Runs(env, w, steps, end) && AllReliable(env, w, steps)
    ensures AllSafe(env, w, steps)
    ensures forall k: nat :: k < |env.plan.names| ==> !FoundNothing(env, w, steps, k)
    decreases |steps|
  {
    if steps != [] {
      ReliableIsSafe(env, w, steps[0]);
      StepKeepsRInv(env, w, steps[0]);
      if steps[0].Invoke? {
        CalledExactly(env, w, steps[0].readable);
      }
      AllReliableIsAllSafe(env, Do(env, w, steps[0]), steps[1..], end);
    }
  }

  /** Whatever requeues, crashes in the handler, revivals and lost row writes a task goes
      through: what it commits is the result of a run in which nothing failed. */
  lemma RetriesAreHarmless(env: Env, steps: seq<Step>, end: World)
    requires ValidPlan(env.plan) && Runs(env, START, steps, end) && AllReliable(env, START, steps) && end.phase.Done?
    ensures FaultFree(env, end, end.values) && end.result == Some(env.plan.final(end.values))
  {
    AllReliableIsAllSafe(env, START, steps, end);
    RetriedRefinesFaultFree(env, steps, end);
  }

  /** And a step whose checkpoint reached the row is never run again. */
  lemma NeverRunAgain(env: Env, before: seq<Step>, w: World, steps: seq<Step>, end: World, k: nat)
    requires ValidPlan(env.plan) && k < |env.plan.names|
    requires Runs(env, START, before, w) && AllReliable(env, START, before) && env.plan.names[k] in w.row
    requires Runs(env, w, steps, end) && AllReliable(env, w, steps)
    ensures end.ran[k] == w.ran[k]
  {
    RunKeepsRInv(env, START, before, w);
    AllReliableIsAllSafe(env, w, steps, end);
    RunAgainOnlyIfNotRead(env, w, steps, end, k);
  }

  // ----- every run of a step is accounted for ------------------------------------------------

  /** The attempt in progress has run the step, or taken it over. */
  predicate InHand(env: Env, w: World, k: nat)
    requires k < |env.plan.names|
  {
    (w.phase.Working? || w.phase.Finishing?) && (env.plan.names[k] in w.memory || (|w.values| == k && w.got.Some?))
  }

  /** The step's one good run: its checkpoint is on the row, an attempt has it in hand, or
      it went into the result. */
  predicate Safekept(env: Env, w: World, k: nat)
    requires k < |env.plan.names|
  {
    w.phase.Done? || env.plan.names[k] in w.row || InHand(env, w, k)
  }

  /** The attempt ends, and its run of the step with it: the row never got the checkpoint. */
  predicate Wastes(env: Env, w: World, step: Step, k: nat)
    requires k < |env.plan.names|
  {
    (step.Fail? || step.Crash?) && InHand(env, w, k) && env.plan.names[k] !in w.row
  }

  ghost function Wasted(env: Env, w: World, steps: seq<Step>, k: nat): nat
    requires k < |env.plan.names|
    decreases |steps|
  {
    if steps == [] || !Allowed(env, w, steps[0]) then 0
    else (if Wastes(env, w, steps[0], k) then 1 else 0) + Wasted(env, Do(env, w, steps[0]), steps[1..], k)
  }

  function One(b: bool): nat {
    if b then 1 else 0
  }

  lemma StepIsAccounted(env: Env, w: World, step: Step, k: nat)
    requires ValidPlan(env.plan) && RInv(env, w) && Allowed(env, w, step) && Reliable(env, w, step)
    requires k < |env.plan.names|
    ensures Do(env, w, step).ran[k] + One(Safekept(env, w, k))
            == w.ran[k] + One(Wastes(env, w, step, k)) + One(Safekept(env, Do(env, w, step), k))
  {
    assert env.plan.names[k] in env.plan.names;
    if step.Respond? && |w.values| == k {
      assert !Safekept(env, w, k);
    }
  }

  lemma {:induction false} RunIsAccounted(env: Env, w: World, steps: seq<Step>, end: World, k: nat)
    requires ValidPlan(env.plan) && RInv(env, w) && Runs(env, w, steps, end) && AllReliable(env, w, steps)
    requires k < |env.plan.names|
    ensures end.ran[k] + One(Safekept(env, w, k)) == w.ran[k] + Wasted(env, w, steps, k) + One(Safekept(env, end, k))
    decreases |steps|
  {
    if steps != [] {
      StepKeepsRInv(env, w, steps[0]);
      StepIsAccounted(env, w, steps[0], k);
      RunIsAccounted(env, Do(env, w, steps[0]), steps[1..], end, k);
    }
  }

  /** Nothing is paid for without need: a step has really run once for every attempt that
      ended before the row had its checkpoint, and once more when it is kept. */
  lemma EveryRunIsKeptOrLost(env: Env, steps: seq<Step>, end: World, k: nat)
    requires ValidPlan(env.plan) && Runs(env, START, steps, end) && AllReliable(env, START, steps)
    requires k < |env.plan.names|
    ensures end.ran[k] == Wasted(env, START, steps, k) + One(Safekept(env, end, k))
  {
    RunIsAccounted(env, START, steps, end, k);
  }

  // ----- and a retried task can always finish ------------------------------------------------

  /** `end` is a task finished from `w`, with every value `w` had a checkpoint of. */
  predicate Finishes(env: Env, w: World, ledger: Ledger, end: World) {
    && end.phase.Done? && |end.values| == |env.plan.names|
    && forall k: nat :: k < |env.plan.names| && env.plan.names[k] in ledger ==>
         end.values[k] == Value(env, w.objects, ledger, k)
  }

  lemma Prepend(env: Env, w: World, step: Step, steps: seq<Step>, end: World)
    requires Allowed(env, w, step) && Reliable(env, w, step)
    requires Runs(env, Do(env, w, step), steps, end) && AllReliable(env, Do(env, w, step), steps)
    ensures Runs(env, w, [step] + steps, end) && AllReliable(env, w, [step] + steps)
  {
    assert ([step] + steps)[1..] == steps;
  }

  lemma RunsReliably(env: Env, w: World, v: Json, steps: seq<Step>, end: World)
    requires Allowed(env, w, Invoke(true, JNull, false)) && w.got.None? && v != JNull && ReferenceIn(v).None?
    requires Runs(env, RanHere(env, w, v), steps, end) && AllReliable(env, RanHere(env, w, v), steps)
    ensures var all := [Invoke(true, JNull, false)] + ([Respond(v)] + ([Record(None, "", false)] + steps));
            Runs(env, w, all, end) && AllReliable(env, w, all)
  {
    var a := Do(env, w, Invoke(true, JNull, false));
    var b := Do(env, a, Respond(v));
    Prepend(env, b, Record(None, "", false), steps, end);
    Prepend(env, a, Respond(v), [Record(None, "", false)] + steps, end);
    Prepend(env, w, Invoke(true, JNull, false), [Respond(v)] + ([Record(None, "", false)] + steps), end);
  }

  /** A claimed attempt at its next step is finished with every checkpoint it has. */
  ghost predicate Concludes(env: Env, w: World, steps: seq<Step>, end: World) {
    && Runs(env, w, steps, end) && AllReliable(env, w, steps) && end.phase.Done?
    && |w.values| <= |end.values| == |env.plan.names| && end.values[..|w.values|] == w.values
    && (forall k: nat :: |w.values| <= k < |env.plan.names| && env.plan.names[k] in w.memory ==>
          end.values[k] == Value(env, w.objects, w.memory, k))
  }

  lemma {:induction false} AttemptFinishes(env: Env, w: World) returns (steps: seq<Step>, end: World)
    requires ValidPlan(env.plan) && RInv(env, w) && w.phase.Working? && !w.invoked && w.got.None?
    ensures Concludes(env, w, steps, end)
    decreases |env.plan.names| - |w.values|
  {
    var n := |w.values|;
    if n == |env.plan.names| {
      var cleared := Do(env, w, Clear({}));
      end := Do(env, cleared, Commit);
      Prepend(env, cleared, Commit, [], end);
      Prepend(env, w, Clear({}), [Commit] + [], end);
      steps := [Clear({})] + ([Commit] + []);
      return;
    }
    CalledExactly(env, w, true);
    var rest;
    if env.plan.names[n] in w.memory {
      StepKeepsRInv(env, w, Skip(true));
      rest, end := AttemptFinishes(env, Do(env, w, Skip(true)));
      steps := SkipConcludes(env, w, rest, end);
    } else {
      RanKeepsRInv(env, w);
      rest, end := AttemptFinishes(env, RanHere(env, w, JInt(0)));
      RunsReliably(env, w, JInt(0), rest, end);
      steps := [Invoke(true, JNull, false)] + ([Respond(JInt(0))] + ([Record(None, "", false)] + rest));
      assert end.values[..n] == end.values[..n + 1][..n] == w.values;
    }
  }

  lemma RanKeepsRInv(env: Env, w: World)
    requires ValidPlan(env.plan) && RInv(env, w) && w.got.None?
    requires Allowed(env, w, Invoke(true, JNull, false))
    ensures RInv(env, RanHere(env, w, JInt(0)))
  {
    var called := Do(env, w, Invoke(true, JNull, false));
    var answered := Do(env, called, Respond(JInt(0)));
    StepKeepsRInv(env, w, Invoke(true, JNull, false));
    StepKeepsRInv(env, called, Respond(JInt(0)));
    StepKeepsRInv(env, answered, Record(None, "", false));
  }

  lemma SkipConcludes(env: Env, w: World, rest: seq<Step>, end: World) returns (steps: seq<Step>)
    requires Allowed(env, w, Skip(true)) && Concludes(env, Do(env, w, Skip(true)), rest, end)
    ensures Concludes(env, w, steps, end)
  {
    var n, next := |w.values|, Do(env, w, Skip(true));
    Prepend(env, w, Skip(true), rest, end);
    steps := [Skip(true)] + rest;
    assert end.values[n] == end.values[..n + 1][n] == next.values[n] == Value(env, w.objects, w.memory, n);
    assert end.values[..n] == end.values[..n + 1][..n] == w.values;
  }

  /** However a task stands, mid-step or with its worker dead, it can go on to DONE without
      leaving this environment, and its result takes over every checkpoint on the row. */
  lemma RetriedTasksCanFinish(env: Env, before: seq<Step>, w: World) returns (steps: seq<Step>, end: World)
    requires ValidPlan(env.plan) && Runs(env, START, before, w) && AllReliable(env, START, before)
    requires w.phase.Working? || w.phase.Waiting? || w.phase.Stuck?
    ensures Runs(env, w, steps, end) && AllReliable(env, w, steps) && Finishes(env, w, w.row, end)
  {
    RunKeepsRInv(env, START, before, w);
    if w.phase.Working? {
      StepKeepsRInv(env, w, Fail(true));
      var rest;
      rest, end := ClaimedFinishes(env, Do(env, w, Fail(true)));
      Prepend(env, w, Fail(true), rest, end);
      steps := [Fail(true)] + rest;
    } else if w.phase.Stuck? {
      StepKeepsRInv(env, w, Revive);
      var rest;
      rest, end := ClaimedFinishes(env, Do(env, w, Revive));
      Prepend(env, w, Revive, rest, end);
      steps := [Revive] + rest;
    } else {
      steps, end := ClaimedFinishes(env, w);
    }
  }

  lemma ClaimedFinishes(env: Env, w: World) returns (steps: seq<Step>, end: World)
    requires ValidPlan(env.plan) && RInv(env, w) && w.phase.Waiting?
    ensures Runs(env, w, steps, end) && AllReliable(env, w, steps) && Finishes(env, w, w.row, end)
  {
    StepKeepsRInv(env, w, Claim);
    var rest;
    rest, end := AttemptFinishes(env, Do(env, w, Claim));
    Prepend(env, w, Claim, rest, end);
    steps := [Claim] + rest;
  }
}
