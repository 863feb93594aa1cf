/** The checkpoint ledger of comm/tasks.py: a handler that resumes, or runs and records,
    each of its steps, under any schedule of failures, crashes and retries. */
module Checkpoints {
  import opened Common
  import opened Overflow
  import opened References

  /** The reserved entry where name_call keeps the calls of the task. */
  const CALLS := "$calls"

  type Ledger = map<string, Json>

  /** A handler: its named steps in order, and its result as a function of what they
      produced. */
  datatype Plan = Plan(names: seq<string>, final: seq<Json> -> Json)

  datatype Env = Env(kind: string, plan: Plan, cfg: Config, codec: Codec)

  /** Finishing: the handler has returned and the ledger is being dropped.  Stuck: the row
      says RUNNING and no worker has it. */
  datatype Phase = Waiting | Working | Finishing | Stuck | Done | Failed

  /** `row` is the column, `memory` the context's dict, `used` the keys of this task's
      checkpoint objects, `values` what the attempt in progress has so far.  `runs` and
      `ran` remember every real run of a step: on which earlier values, and with what
      outcome. */
  datatype World = World(
    phase: Phase, row: Ledger, memory: Ledger, objects: Objects, used: set<string>,
    values: seq<Json>, invoked: bool, got: Option<Json>,
    runs: set<(nat, seq<Json>, Json)>, ran: multiset<nat>, result: Option<Json>)

  const START := World(Waiting, map[], map[], map[], {}, [], false, None, {}, multiset{}, None)

  /** `persists` says whether the write to the row goes through, `readable` whether the
      store answers, `key` where a checkpoint too large for the row landed, `kept` the
      objects not deleted, by failure or because the worker died first.  Others put objects
      into the store and objects are lost at any time. */
  datatype Step =
    | Claim
    | Skip(readable: bool)
    | Invoke(readable: bool, calls: Json, persists: bool)
    | Respond(value: Json)
    | Record(key: Option<string>, expires: string, persists: bool)
    | Fail(retry: bool)
    | Crash
    | Revive
    | Clear(kept: set<string>)
    | Commit
    | PutByOther(object_: string, data: Bytes)
    | Lose(object_: string)

  predicate ValidPlan(plan: Plan) {
    CALLS !in plan.names && forall i, j :: 0 <= i < j < |plan.names| ==> plan.names[i] != plan.names[j]
  }

  /** The function name a checkpoint object is stored under. */
  function ObjectName(env: Env, name: string): string {
    "task." + env.kind + "." + name
  }

  // ----- the steps -------------------------------------------------------------------------

  predicate MidRun(env: Env, w: World) {
    w.phase.Working? && |w.values| < |env.plan.names|
  }

  /** resume() of the next step. */
  function Resumed(env: Env, w: World, readable: bool): Json
    requires MidRun(env, w)
  {
    var name := env.plan.names[|w.values|];
    if name in w.memory then CheckpointValue(env.cfg, env.codec, w.objects, w.memory[name], readable, JNull) else JNull
  }

  /** The ledger entry of a value that landed at `key`, or that stays on the row. */
  function Entry(env: Env, v: Json, name: string, key: Option<string>, expires: string): Json
    requires key.Some? ==> env.cfg.store.Some?
  {
    if key.None? then v
    else Frame(RefTo(env.cfg, env.codec, key.value, env.codec.dumps(v), ObjectName(env, name), Checkpoint, expires))
  }

  /** The object an entry refers to. */
  function ObjectOf(c: Codec, entry: Json): set<string> {
    var ref := ReferenceIn(entry);
    if ref.Some? && ref.value != map[] then {TextOf(c, ref.value, "key")} else {}
  }

  function Referenced(c: Codec, ledger: Ledger): set<string> {
    set name, key | name in ledger && key in ObjectOf(c, ledger[name]) :: key
  }

  function CallsIn(ledger: Ledger): Fields {
    if CALLS in ledger && ledger[CALLS].JObj? then ledger[CALLS].fields else map[]
  }

  function ReplyObject(env: Env, calls: Fields, key: string): string {
    DurableKey(env.cfg.prefix, TextOf(env.codec, calls, key), key)
  }

  /** The shelved replies of the calls a ledger notes. */
  function Replies(env: Env, ledger: Ledger): set<string> {
    set key | key in CallsIn(ledger) && key != "" :: ReplyObject(env, CallsIn(ledger), key)
  }

  /** What _clear_checkpoints deletes. */
  function Dropped(env: Env, ledger: Ledger): set<string> {
    Replies(env, ledger) + Referenced(env.codec, ledger)
  }

  predicate Allowed(env: Env, w: World, step: Step) {
    match step
    case Claim => w.phase.Waiting?
    case Skip(readable) => MidRun(env, w) && !w.invoked && Resumed(env, w, readable) != JNull
    case Invoke(readable, _, _) => MidRun(env, w) && !w.invoked && Resumed(env, w, readable) == JNull
    case Respond(_) => MidRun(env, w) && w.invoked && w.got.None?
    case Record(key, _, _) =>
      && MidRun(env, w) && w.got.Some?
      && (key.Some? ==> env.cfg.store.Some? && !Inline(env.cfg, env.codec, w.got.value))
    case Fail(_) => w.phase.Working?
    case Crash => w.phase.Working? || w.phase.Finishing?
    case Revive => w.phase.Stuck?
    case Clear(_) => w.phase.Working? && |w.values| == |env.plan.names|
    case Commit => w.phase.Finishing?
    case PutByOther(_, _) => true
    case Lose(_) => true
  }

  function Do(env: Env, w: World, step: Step): World
    requires Allowed(env, w, step)
  {
    match step
    case Claim => w.(phase := Working, memory := w.row, values := [], invoked := false, got := None)
    case Skip(readable) => w.(values := w.values + [Resumed(env, w, readable)])
    case Invoke(_, calls, persists) =>
      var memory := w.memory[CALLS := calls];
      w.(memory := memory, row := if persists then memory else w.row, invoked := true)
    case Respond(value) =>
      w.(runs := w.runs + {(|w.values|, w.values, value)}, ran := w.ran + multiset{|w.values|}, got := Some(value))
    case Record(key, expires, persists) =>
      var name, v := env.plan.names[|w.values|], w.got.value;
      var memory := w.memory[name := Entry(env, v, name, key, expires)];
      w.(memory := memory, row := if persists then memory else w.row,
         objects := if key.Some? then w.objects[key.value := env.codec.dumps(v)] else w.objects,
         used := if key.Some? then w.used + {key.value} else w.used,
         values := w.values + [v], invoked := false, got := None)
    case Fail(retry) => w.(phase := if retry then Waiting else Failed)
    case Crash => w.(phase := Stuck)
    case Revive => w.(phase := Waiting)
    case Clear(kept) => w.(phase := Finishing, objects := w.objects - (Dropped(env, w.memory) - kept))
    case Commit => w.(phase := Done, result := Some(env.plan.final(w.values)), row := map[])
    case PutByOther(object_, data) => w.(objects := w.objects[object_ := data])
    case Lose(object_) => w.(objects := w.objects - {object_})
  }

  ghost predicate Runs(env: Env, w: World, steps: seq<Step>, end: World)
    decreases |steps|
  {
    if steps == [] then end == w
    else Allowed(env, w, steps[0]) && Runs(env, Do(env, w, steps[0]), steps[1..], end)
  }

  // ----- what can be read back ---------------------------------------------------------------

  /** What step k's entry reads back as while the store answers: None when there is no
      entry, when None was recorded, or when its object cannot be read. */
  function Value(env: Env, objects: Objects, ledger: Ledger, k: nat): Json
    requires k < |env.plan.names|
  {
    var name := env.plan.names[k];
    if name in ledger then CheckpointValue(env.cfg, env.codec, objects, ledger[name], true, JNull) else JNull
  }

  predicate Live(env: Env, objects: Objects, ledger: Ledger, k: nat)
    requires k < |env.plan.names|
  {
    Value(env, objects, ledger, k) != JNull
  }

  /** Nothing after step n has a checkpoint that reads back. */
  predicate NoneLiveAfter(env: Env, objects: Objects, ledger: Ledger, n: nat) {
    forall j: nat :: n < j < |env.plan.names| ==> !Live(env, objects, ledger, j)
  }

  /** A fresh name and a value that comes back from its text, or a plain value. */
  predicate Recordable(env: Env, w: World, v: Json, key: Option<string>) {
    if key.Some? then key.value !in w.used && RoundTrips(env.codec, v) else ReferenceIn(v).None?
  }

  /** A step is run again only while nothing after it reads back; a value kept on the row
      is not shaped like a reference, one that is stored comes back from its own text; and
      the names of checkpoint objects are not used again. */
  predicate Safe(env: Env, w: World, step: Step) {
    match step
    case Invoke(_, _, _) => NoneLiveAfter(env, w.objects, w.memory, |w.values|)
    case Record(key, _, _) =>
      w.got.Some? && Recordable(env, w, w.got.value, key)
    case PutByOther(object_, _) => object_ !in w.used
    case _ => true
  }

  ghost predicate AllSafe(env: Env, w: World, steps: seq<Step>)
    decreases |steps|
  {
    steps == [] ||
    (Allowed(env, w, steps[0]) && Safe(env, w, steps[0]) && AllSafe(env, Do(env, w, steps[0]), steps[1..]))
  }

  /** These are the values of a run in which nothing failed: every step really ran, on
      exactly the values before it. */
  ghost predicate FaultFree(env: Env, w: World, values: seq<Json>) {
    && |values| == |env.plan.names|
    && (forall k :: 0 <= k < |values| ==> (k, values[..k], values[k]) in w.runs)
  }

  // ----- the invariant -----------------------------------------------------------------------

  /** `before` are the values step k really ran on; they agree with every earlier step
      that still reads back. */
  ghost predicate Explains(env: Env, w: World, ledger: Ledger, k: nat, before: seq<Json>)
    requires k < |env.plan.names|
  {
    && |before| == k && (k, before, Value(env, w.objects, ledger, k)) in w.runs
    && (forall j: nat :: j < k && Live(env, w.objects, ledger, j) ==> before[j] == Value(env, w.objects, ledger, j))
  }

  ghost predicate Linked(env: Env, w: World, ledger: Ledger) {
    forall k: nat :: k < |env.plan.names| && Live(env, w.objects, ledger, k) ==>
      exists before :: Explains(env, w, ledger, k, before)
  }

  /** A step still ahead was run on the values this attempt has so far. */
  ghost predicate Ahead(env: Env, w: World, k: nat)
    requires k < |env.plan.names| && |w.values| <= k
  {
    exists before :: Explains(env, w, w.memory, k, before) && before[..|w.values|] == w.values
  }

  /** Entries are plain or refer to this task's own objects. */
  predicate Tame(env: Env, w: World, ledger: Ledger) {
    forall k: nat :: k < |env.plan.names| && env.plan.names[k] in ledger ==>
      TameEntry(env, w, ledger[env.plan.names[k]])
  }

  predicate TameEntry(env: Env, w: World, entry: Json) {
    var ref := ReferenceIn(entry);
    ref.None? || TextOf(env.codec, ref.value, "key") in w.used
  }

  ghost predicate SoFar(env: Env, w: World) {
    && |w.values| <= |env.plan.names|
    && (forall k :: 0 <= k < |w.values| ==> (k, w.values[..k], w.values[k]) in w.runs)
    && (forall k :: 0 <= k < |w.values| && Live(env, w.objects, w.memory, k) ==>
          Value(env, w.objects, w.memory, k) == w.values[k])
    && (forall k: nat :: |w.values| <= k < |env.plan.names| && Live(env, w.objects, w.memory, k) ==> Ahead(env, w, k))
  }

  ghost predicate InProgress(env: Env, w: World) {
    && SoFar(env, w) && Tame(env, w, w.memory)
    && (w.invoked ==> |w.values| < |env.plan.names| && NoneLiveAfter(env, w.objects, w.memory, |w.values|))
    && (w.got.Some? ==> w.invoked && (|w.values|, w.values, w.got.value) in w.runs)
  }

  ghost predicate Inv(env: Env, w: World) {
    && Linked(env, w, w.row) && Tame(env, w, w.row)
    && (w.phase.Working? || w.phase.Finishing? ==> InProgress(env, w))
    && (w.phase.Finishing? ==> |w.values| == |env.plan.names|)
    && (w.phase.Done? ==> FaultFree(env, w, w.values) && w.result == Some(env.plan.final(w.values)))
  }

  // ----- changes of the store ----------------------------------------------------------------

  /** Entries read back as before or no longer. */
  predicate Fades(env: Env, before: Objects, after: Objects, ledger: Ledger) {
    forall k: nat :: k < |env.plan.names| && Live(env, after, ledger, k) ==>
      Value(env, after, ledger, k) == Value(env, before, ledger, k)
  }

  lemma OthersFade(env: Env, w: World, ledger: Ledger, key: string, data: Bytes)
    requires Tame(env, w, ledger) && key !in w.used
    ensures Fades(env, w.objects, w.objects[key := data], ledger)
  {
  }

  lemma LossesFade(env: Env, objects: Objects, gone: set<string>, ledger: Ledger)
    ensures Fades(env, objects, objects - gone, ledger)
  {
  }

  lemma LinkedFades(env: Env, w: World, after: World, ledger: Ledger)
    requires Linked(env, w, ledger) && Fades(env, w.objects, after.objects, ledger) && w.runs <= after.runs
    ensures Linked(env, after, ledger)
  {
    forall k: nat | k < |env.plan.names| && Live(env, after.objects, ledger, k)
      ensures exists before :: Explains(env, after, ledger, k, before)
    {
      assert Live(env, w.objects, ledger, k);
      var before :| Explains(env, w, ledger, k, before);
      assert Explains(env, after, ledger, k, before);
    }
  }

  lemma SoFarFades(env: Env, w: World, after: World)
    requires SoFar(env, w) && after.values == w.values && after.memory == w.memory
    requires Fades(env, w.objects, after.objects, w.memory) && w.runs <= after.runs
    ensures SoFar(env, after)
  {
    forall k: nat | |w.values| <= k < |env.plan.names| && Live(env, after.objects, w.memory, k)
      ensures Ahead(env, after, k)
    {
      assert Ahead(env, w, k);
      var before :| Explains(env, w, w.memory, k, before) && before[..|w.values|] == w.values;
      assert Explains(env, after, after.memory, k, before);
    }
  }

  lemma NoneLiveFades(env: Env, before: Objects, after: Objects, ledger: Ledger, n: nat)
    requires Fades(env, before, after, ledger) && NoneLiveAfter(env, before, ledger, n)
    ensures NoneLiveAfter(env, after, ledger, n)
  {
    forall j: nat | n < j < |env.plan.names| ensures !Live(env, after, ledger, j) {
      assert !Live(env, before, ledger, j);
    }
  }

  /** The attempt's dict is linked: what it has it ran or took over, what is ahead was run
      on that. */
  lemma MemoryIsLinked(env: Env, w: World)
    requires SoFar(env, w)
    ensures Linked(env, w, w.memory)
  {
    forall k: nat | k < |env.plan.names| && Live(env, w.objects, w.memory, k)
      ensures exists before :: Explains(env, w, w.memory, k, before)
    {
      if k < |w.values| {
        assert Explains(env, w, w.memory, k, w.values[..k]);
      } else {
        assert Ahead(env, w, k);
      }
    }
  }

  // ----- each step keeps the invariant -------------------------------------------------------

  lemma ClaimKeepsInv(env: Env, w: World)
    requires Inv(env, w) && Allowed(env, w, Claim)
    ensures Inv(env, Do(env, w, Claim))
  {
    var end := Do(env, w, Claim);
    LinkedFades(env, w, end, w.row);
    forall k: nat | k < |env.plan.names| && Live(env, end.objects, end.memory, k) ensures Ahead(env, end, k) {
      var before :| Explains(env, end, end.memory, k, before);
      assert before[..0] == end.values;
    }
  }

  /** A read that finds something finds the recorded value. */
  lemma ReadIsValue(env: Env, w: World, readable: bool)
    requires MidRun(env, w) && Resumed(env, w, readable) != JNull
    ensures Live(env, w.objects, w.memory, |w.values|)
    ensures Resumed(env, w, readable) == Value(env, w.objects, w.memory, |w.values|)
  {
  }

  lemma SkipKeepsInv(env: Env, w: World, readable: bool)
    requires Inv(env, w) && Allowed(env, w, Skip(readable))
    ensures Inv(env, Do(env, w, Skip(readable)))
  {
    var end, n := Do(env, w, Skip(readable)), |w.values|;
    ReadIsValue(env, w, readable);
    LinkedFades(env, w, end, w.row);
    assert Ahead(env, w, n);
    var mine :| Explains(env, w, w.memory, n, mine) && mine[..n] == w.values;
    assert mine[..n] == mine;
    SoFarGrows(env, w, end, w.memory, end.values[n]);
  }

  /** One more value: taken over from the ledger or newly recorded in it. */
  lemma SoFarGrows(env: Env, w: World, end: World, ledger: Ledger, v: Json)
    requires SoFar(env, w) && |w.values| < |env.plan.names|
    requires end.values == w.values + [v] && end.memory == ledger && w.runs <= end.runs
    requires (|w.values|, w.values, v) in w.runs
    requires Fades(env, w.objects, end.objects, w.memory)
    requires forall k: nat :: k < |env.plan.names| && k != |w.values| ==>
               Value(env, end.objects, ledger, k) == Value(env, end.objects, w.memory, k)
    requires Live(env, end.objects, ledger, |w.values|) ==> Value(env, end.objects, ledger, |w.values|) == v
    requires NoneLiveAfter(env, w.objects, w.memory, |w.values|)
             || (end.objects == w.objects && ledger == w.memory && Live(env, w.objects, w.memory, |w.values|))
    ensures SoFar(env, end)
  {
    var n := |w.values|;
    forall k | 0 <= k < |end.values| ensures (k, end.values[..k], end.values[k]) in end.runs {
      assert end.values[..k] == w.values[..k];
      assert k == n ==> w.values[..k] == w.values;
    }
    forall k | 0 <= k < |end.values| && Live(env, end.objects, ledger, k)
      ensures Value(env, end.objects, ledger, k) == end.values[k]
    {
      if k < n {
        assert Live(env, w.objects, w.memory, k);
      }
    }
    forall k: nat | |end.values| <= k < |env.plan.names| && Live(env, end.objects, end.memory, k)
      ensures Ahead(env, end, k)
    {
      assert Live(env, w.objects, w.memory, k);
      assert Ahead(env, w, k);
      var before :| Explains(env, w, w.memory, k, before) && before[..n] == w.values;
      assert before[..n + 1] == before[..n] + [before[n]];
      assert Explains(env, end, end.memory, k, before);
    }
  }

  /** The calls entry is not one of the steps. */
  lemma CallsAreNoStep(env: Env, ledger: Ledger, calls: Json)
    requires ValidPlan(env.plan)
    ensures forall objects: Objects, k: nat :: k < |env.plan.names| ==>
              Value(env, objects, ledger[CALLS := calls], k) == Value(env, objects, ledger, k)
    ensures forall k: nat :: k < |env.plan.names| ==>
              (env.plan.names[k] in ledger[CALLS := calls] <==> env.plan.names[k] in ledger)
              && (env.plan.names[k] in ledger ==>
                ledger[CALLS := calls][env.plan.names[k]] == ledger[env.plan.names[k]])
  {
    assert forall k: nat :: k < |env.plan.names| ==> env.plan.names[k] in env.plan.names;
  }

  /** Two dicts that say the same of every step. */
  predicate SameSteps(env: Env, a: Ledger, b: Ledger) {
    forall k: nat :: k < |env.plan.names| ==>
      var name := env.plan.names[k];
      (name in a <==> name in b) && (name in a ==> a[name] == b[name])
  }

  lemma SameStepsSame(env: Env, w: World, end: World)
    requires SameSteps(env, w.memory, end.memory) && end.values == w.values
    requires end.objects == w.objects && w.runs <= end.runs && w.used == end.used
    ensures SoFar(env, w) ==> SoFar(env, end)
    ensures Tame(env, w, w.memory) ==> Tame(env, end, end.memory)
    ensures NoneLiveAfter(env, w.objects, w.memory, |w.values|) ==>
        NoneLiveAfter(env, end.objects, end.memory, |end.values|)
  {
    forall k: nat | k < |env.plan.names|
      ensures Value(env, w.objects, w.memory, k) == Value(env, end.objects, end.memory, k)
      ensures Live(env, w.objects, w.memory, k) <==> Live(env, end.objects, end.memory, k)
    {
    }
    if SoFar(env, w) {
      forall k: nat | |w.values| <= k < |env.plan.names| && Live(env, end.objects, end.memory, k)
        ensures Ahead(env, end, k)
      {
        assert Live(env, w.objects, w.memory, k) && Ahead(env, w, k);
        var before :| Explains(env, w, w.memory, k, before) && before[..|w.values|] == w.values;
        assert Explains(env, end, end.memory, k, before);
      }
    }
  }

  lemma InvokeKeepsInv(env: Env, w: World, step: Step)
    requires ValidPlan(env.plan) && Inv(env, w) && step.Invoke? && Allowed(env, w, step) && Safe(env, w, step)
    ensures Inv(env, Do(env, w, step))
  {
    var end := Do(env, w, step);
    CallsAreNoStep(env, w.memory, step.calls);
    SameStepsSame(env, w, end);
    LinkedFades(env, w, end, w.row);
    MemoryIsLinked(env, end);
  }

  lemma RespondKeepsInv(env: Env, w: World, value: Json)
    requires Inv(env, w) && Allowed(env, w, Respond(value))
    ensures Inv(env, Do(env, w, Respond(value)))
  {
    var end := Do(env, w, Respond(value));
    LinkedFades(env, w, end, w.row);
    SoFarFades(env, w, end);
  }

  /** A new entry reads back as its value, or not at all. */
  lemma EntryReadsBackOrNot(env: Env, w: World, v: Json, name: string, key: Option<string>, expires: string)
    requires if key.Some? then env.cfg.store.Some? && RoundTrips(env.codec, v) else ReferenceIn(v).None?
    ensures var after := if key.Some? then w.objects[key.value := env.codec.dumps(v)] else w.objects;
            var used := if key.Some? then w.used + {key.value} else w.used;
            var entry := Entry(env, v, name, key, expires);
            && CheckpointValue(env.cfg, env.codec, after, entry, true, JNull) in {v, JNull}
            && TameEntry(env, w.(used := used), entry)
  {
    if key.Some? {
      RefFields(env.codec, env.cfg.store.value, key.value, |env.codec.dumps(v)|, env.codec.sha(env.codec.dumps(v)),
                ObjectName(env, name), Checkpoint, expires);
    }
  }

  lemma RecordKeepsInv(env: Env, w: World, step: Step)
    requires ValidPlan(env.plan) && Inv(env, w)
    requires step.Record? && Allowed(env, w, step) && Safe(env, w, step)
    ensures Inv(env, Do(env, w, step))
  {
    var end, n := Do(env, w, step), |w.values|;
    var name, v := env.plan.names[n], w.got.value;
    EntryReadsBackOrNot(env, w, v, name, step.key, step.expires);
    if step.key.Some? {
      OthersFade(env, w, w.row, step.key.value, env.codec.dumps(v));
      OthersFade(env, w, w.memory, step.key.value, env.codec.dumps(v));
    }
    LinkedFades(env, w, end, w.row);
    SoFarGrows(env, w, end, end.memory, v);
    MemoryIsLinked(env, end);
  }

  /** Clear, and what others do to the store. */
  lemma FadingKeepsInv(env: Env, w: World, step: Step)
    requires Inv(env, w) && Allowed(env, w, step) && Safe(env, w, step)
    requires step.Clear? || step.PutByOther? || step.Lose?
    ensures Inv(env, Do(env, w, step))
  {
    var end := Do(env, w, step);
    match step {
      case Clear(kept) =>
        LossesFade(env, w.objects, Dropped(env, w.memory) - kept, w.row);
        LossesFade(env, w.objects, Dropped(env, w.memory) - kept, w.memory);
      case PutByOther(key, data) =>
        OthersFade(env, w, w.row, key, data);
        if w.phase.Working? || w.phase.Finishing? {
          OthersFade(env, w, w.memory, key, data);
        }
      case Lose(key) =>
        LossesFade(env, w.objects, {key}, w.row);
        LossesFade(env, w.objects, {key}, w.memory);
    }
    LinkedFades(env, w, end, w.row);
    if w.phase.Working? || w.phase.Finishing? {
      SoFarFades(env, w, end);
      if w.invoked {
        NoneLiveFades(env, w.objects, end.objects, w.memory, |w.values|);
      }
    }
  }

  lemma StepKeepsInv(env: Env, w: World, step: Step)
    requires ValidPlan(env.plan) && Inv(env, w) && Allowed(env, w, step) && Safe(env, w, step)
    ensures Inv(env, Do(env, w, step))
  {
    match step {
      case Claim => ClaimKeepsInv(env, w);
      case Skip(readable) => SkipKeepsInv(env, w, readable);
      case Invoke(_, _, _) => InvokeKeepsInv(env, w, step);
      case Respond(value) => RespondKeepsInv(env, w, value);
      case Record(_, _, _) => RecordKeepsInv(env, w, step);
      case Fail(_) => LinkedFades(env, w, Do(env, w, step), w.row);
      case Crash => LinkedFades(env, w, Do(env, w, step), w.row);
      case Revive => LinkedFades(env, w, Do(env, w, step), w.row);
      case Commit =>
      case _ => FadingKeepsInv(env, w, step);
    }
  }

  // ----- whole runs --------------------------------------------------------------------------

  lemma {:induction false} RunKeepsInv(env: Env, w: World, steps: seq<Step>, end: World)
    requires ValidPlan(env.plan) && Inv(env, w) && Runs(env, w, steps, end) && AllSafe(env, w, steps)
    ensures Inv(env, end)
    decreases |steps|
  {
    if steps != [] {
      StepKeepsInv(env, w, steps[0]);
      RunKeepsInv(env, Do(env, w, steps[0]), steps[1..], end);
    }
  }

  /** Under any schedule of failures, crashes (also while the ledger is being dropped),
      failing reads, lost objects, lost row writes and retries: the result that is
      committed is that of a run in which nothing failed, on values that were all really
      produced, each from the ones before it, as long as a step is run again only while
      nothing after it reads back. */
  lemma RetriedRefinesFaultFree(env: Env, steps: seq<Step>, end: World)
    requires ValidPlan(env.plan) && Runs(env, START, steps, end)
    requires AllSafe(env, START, steps) && end.phase.Done?
    ensures FaultFree(env, end, end.values) && end.result == Some(env.plan.final(end.values))
  {
    RunKeepsInv(env, START, steps, end);
  }

  // ----- the converse: running a step again below one that reads back ------------------------

  lemma RunsStart(env: Env, w: World, step: Step, steps: seq<Step>, end: World)
    requires Allowed(env, w, step) && Runs(env, Do(env, w, step), steps, end)
    ensures Runs(env, w, [step] + steps, end)
  {
    assert ([step] + steps)[1..] == steps;
  }

  /** One step of the handler taken for real, kept on the row's dict only. */
  function RanHere(env: Env, w: World, v: Json): World
    requires MidRun(env, w)
  {
    var n := |w.values|;
    w.(memory := w.memory[CALLS := JNull][env.plan.names[n] := v], values := w.values + [v],
       invoked := false, got := None, runs := w.runs + {(n, w.values, v)}, ran := w.ran + multiset{n})
  }

  lemma RunStep(env: Env, w: World, readable: bool, v: Json, steps: seq<Step>, end: World)
    requires Allowed(env, w, Invoke(readable, JNull, false)) && w.got.None?
    requires Runs(env, RanHere(env, w, v), steps, end)
    ensures Runs(env, w, [Invoke(readable, JNull, false)] + ([Respond(v)] + ([Record(None, "", false)] + steps)), end)
  {
    var a := Do(env, w, Invoke(readable, JNull, false));
    var b := Do(env, a, Respond(v));
    RunsStart(env, b, Record(None, "", false), steps, end);
    RunsStart(env, a, Respond(v), [Record(None, "", false)] + steps, end);
    RunsStart(env, w, Invoke(readable, JNull, false), [Respond(v)] + ([Record(None, "", false)] + steps), end);
  }

  /** At every step `end` took over what `w` could read, and otherwise ran it. */
  ghost predicate TakesOver(env: Env, w: World, end: World) {
    && end.phase.Working? && |end.values| == |env.plan.names|
    && |w.values| <= |end.values| && end.values[..|w.values|] == w.values && w.runs <= end.runs
    && (forall k: nat, before, v :: k < |w.values| && (k, before, v) in end.runs ==> (k, before, v) in w.runs)
    && (forall k: nat :: |w.values| <= k < |env.plan.names| && Live(env, w.objects, w.memory, k) ==>
          end.values[k] == Value(env, w.objects, w.memory, k)
          && forall before, v :: (k, before, v) in end.runs ==> (k, before, v) in w.runs)
  }

  lemma StillThere(env: Env, w: World, v: Json)
    requires ValidPlan(env.plan) && MidRun(env, w)
    ensures forall k: nat :: |w.values| < k < |env.plan.names| ==>
              Value(env, w.objects, RanHere(env, w, v).memory, k) == Value(env, w.objects, w.memory, k)
  {
    CallsAreNoStep(env, w.memory, JNull);
  }

  /** Any attempt can be completed. */
  lemma {:induction false} Complete(env: Env, w: World) returns (steps: seq<Step>, end: World)
    requires ValidPlan(env.plan) && w.phase.Working? && |w.values| <= |env.plan.names| && !w.invoked && w.got.None?
    ensures Runs(env, w, steps, end) && TakesOver(env, w, end)
    decreases |env.plan.names| - |w.values|
  {
    var n := |w.values|;
    if n == |env.plan.names| {
      steps, end := [], w;
    } else if Live(env, w.objects, w.memory, n) {
      var next := Do(env, w, Skip(true));
      var rest;
      rest, end := Complete(env, next);
      RunsStart(env, w, Skip(true), rest, end);
      steps := [Skip(true)] + rest;
      TakesOverFirst(env, w, next, end);
    } else {
      var next := RanHere(env, w, JNull);
      var rest;
      rest, end := Complete(env, next);
      RunStep(env, w, true, JNull, rest, end);
      steps := [Invoke(true, JNull, false)] + ([Respond(JNull)] + ([Record(None, "", false)] + rest));
      StillThere(env, w, JNull);
      TakesOverFirst(env, w, next, end);
    }
  }

  lemma TakesOverFirst(env: Env, w: World, next: World, end: World)
    requires MidRun(env, w) && TakesOver(env, next, end) && |next.values| == |w.values| + 1
    requires next.values[..|w.values|] == w.values && w.runs <= next.runs && next.objects == w.objects
    requires forall k: nat :: |w.values| < k < |env.plan.names| ==>
               Value(env, w.objects, next.memory, k) == Value(env, w.objects, w.memory, k)
    requires forall k: nat, before, v :: k != |w.values| && (k, before, v) in next.runs ==> (k, before, v) in w.runs
    requires Live(env, w.objects, w.memory, |w.values|) ==>
               && next == w.(values := next.values)
               && next.values[|w.values|] == Value(env, w.objects, w.memory, |w.values|)
    ensures TakesOver(env, w, end)
  {
    var n := |w.values|;
    assert end.values[..n] == end.values[..n + 1][..n] == w.values;
    forall k: nat | n <= k < |env.plan.names| && Live(env, w.objects, w.memory, k)
      ensures end.values[k] == Value(env, w.objects, w.memory, k)
      ensures forall before, v :: (k, before, v) in end.runs ==> (k, before, v) in w.runs
    {
      if k == n {
        assert end.values[n] == end.values[..n + 1][n];
      } else {
        assert Live(env, next.objects, next.memory, k);
      }
    }
  }

  /** A number that occurs in none of these. */
  lemma {:induction false} FreshInt(taken: set<Json>) returns (i: int)
    ensures forall j :: j >= i ==> JInt(j) !in taken
    decreases |taken|
  {
    if taken == {} {
      i := 0;
    } else {
      var v :| v in taken;
      i := FreshInt(taken - {v});
      if v.JInt? && v.i >= i {
        i := v.i + 1;
      }
    }
  }

  /** A step run again below one that reads back can always end in a result that no run
      without failures gives: the new value below, the old one above. */
  lemma InvokeBelowRecordedMixes(env: Env, w: World, readable: bool, m: nat) returns (steps: seq<Step>, end: World)
    requires ValidPlan(env.plan) && Allowed(env, w, Invoke(readable, JNull, false)) && w.got.None?
    requires |w.values| < m < |env.plan.names| && Live(env, w.objects, w.memory, m)
    ensures Runs(env, w, [Invoke(readable, JNull, false)] + steps, end) && end.phase.Done?
    ensures end.result == Some(env.plan.final(end.values)) && !FaultFree(env, end, end.values)
  {
    var n := |w.values|;
    var taken := set r, j | r in w.runs && 0 <= j < |r.1| :: r.1[j];
    var i := FreshInt(taken);
    assert forall r, j :: r in w.runs && 0 <= j < |r.1| ==> r.1[j] in taken;
    var v := JInt(i);
    var next := RanHere(env, w, v);
    var rest, full := Complete(env, next);
    var cleared := Do(env, full, Clear({}));
    end := Do(env, cleared, Commit);
    RunsStep(env, next, rest, full, Clear({}));
    RunsStep(env, next, rest + [Clear({})], cleared, Commit);
    RunStep(env, w, readable, v, rest + [Clear({})] + [Commit], end);
    steps := [Respond(v)] + ([Record(None, "", false)] + (rest + [Clear({})] + [Commit]));
    StillThere(env, w, v);
    NewBelowOld(env, w, next, full, m, i);
  }

  lemma NewBelowOld(env: Env, w: World, next: World, full: World, m: nat, i: int)
    requires MidRun(env, w) && |w.values| < m < |env.plan.names| && next == RanHere(env, w, JInt(i))
    requires Live(env, next.objects, next.memory, m) && TakesOver(env, next, full)
    requires forall r, j :: r in w.runs && 0 <= j < |r.1| ==> r.1[j] != JInt(i)
    ensures (m, full.values[..m], full.values[m]) !in full.runs
  {
    var n := |w.values|;
    assert full.values[..m][n] == full.values[..n + 1][n] == JInt(i);
    assert (m, full.values[..m], full.values[m]) !in w.runs;
  }

  lemma {:induction false} RunsStep(env: Env, w: World, steps: seq<Step>, mid: World, step: Step)
    requires Runs(env, w, steps, mid) && Allowed(env, mid, step)
    ensures Runs(env, w, steps + [step], Do(env, mid, step))
    decreases |steps|
  {
    if steps == [] {
      assert [step][1..] == [];
      assert steps + [step] == [step];
    } else {
      RunsStep(env, Do(env, w, steps[0]), steps[1..], mid, step);
      assert (steps + [step])[1..] == steps[1..] + [step];
    }
  }

  // ----- names and notes -----------------------------------------------------------------------

  /** Where a large checkpoint of an ordinarily named step is written. */
  lemma CheckpointKeysAreSpelled(env: Env, name: string, hex: string)
    requires SafeText(env.kind) && SafeText(name) && |env.kind| + |name| <= 74
    ensures NewKey(env.cfg.prefix, ObjectName(env, name), Checkpoint, hex)
            == Path([env.cfg.prefix, "checkpoint", "task." + env.kind + "." + name, hex + ".json"])
  {
    KeysAreSpelled(env.cfg.prefix, ObjectName(env, name), "", hex);
  }

  /** A call that was noted on the row is known to the next attempt, and to the sweep, even
      if the worker dies before it is answered. */
  lemma NotesOutliveCrash(env: Env, w: World, readable: bool, calls: Json)
    requires Allowed(env, w, Invoke(readable, calls, true))
    ensures var dead := Do(env, Do(env, w, Invoke(readable, calls, true)), Crash);
            && "$calls" in dead.row && dead.row["$calls"] == calls
            && Do(env, Do(env, dead, Revive), Claim).memory == dead.row
            && forall name :: name != "$calls" && name in w.memory ==>
                 name in dead.row && dead.row[name] == w.memory[name]
  {
  }

  /** What a finish deletes, unless the delete fails: the object of each checkpoint, and the
      shelved reply of each noted call that has a key.  Nothing else. */
  lemma ClearDeletesExactly(env: Env, w: World, kept: set<string>, object_: string)
    requires Allowed(env, w, Clear(kept)) && object_ in w.objects
    ensures object_ !in Do(env, w, Clear(kept)).objects
            <==> object_ !in kept && (HoldsCheckpoint(env, w.memory, object_) || HoldsReply(env, w.memory, object_))
  {
    forall name | name in w.memory
      ensures object_ in ObjectOf(env.codec, w.memory[name]) <==> RefersTo(env.codec, w.memory[name], object_)
    {
    }
    assert object_ in Referenced(env.codec, w.memory) <==> HoldsCheckpoint(env, w.memory, object_);
    assert object_ in Replies(env, w.memory) <==> HoldsReply(env, w.memory, object_);
  }

  predicate HoldsCheckpoint(env: Env, ledger: Ledger, object_: string) {
    exists name :: name in ledger && RefersTo(env.codec, ledger[name], object_)
  }

  predicate RefersTo(c: Codec, entry: Json, object_: string) {
    && entry.JObj? && "$ref" in entry.fields && entry.fields["$ref"].JObj?
    && entry.fields["$ref"].fields != map[] && TextOf(c, entry.fields["$ref"].fields, "key") == object_
  }

  predicate HoldsReply(env: Env, ledger: Ledger, object_: string) {
    && "$calls" in ledger && ledger["$calls"].JObj?
    && exists key :: key in ledger["$calls"].fields && key != ""
         && DurableKey(env.cfg.prefix, TextOf(env.codec, ledger["$calls"].fields, key), key) == object_
  }

  /** Losing one object makes the step that needs it be called for again, and touches no
      other. */
  lemma LostObjectIsMissed(env: Env, w: World, object_: string)
    requires MidRun(env, w) && !w.invoked && env.plan.names[|w.values|] in w.memory
    requires RefersTo(env.codec, w.memory[env.plan.names[|w.values|]], object_)
    ensures Allowed(env, w, Lose(object_))
    ensures Allowed(env, Do(env, w, Lose(object_)), Invoke(true, JNull, true))
    ensures forall other :: other != object_ && other in w.objects ==>
              other in Do(env, w, Lose(object_)).objects
              && Do(env, w, Lose(object_)).objects[other] == w.objects[other]
  {
  }

  /** name_call adds its call to those noted before and takes none away. */
  lemma CallsAreAdded(ledger: Ledger, key: string, function_: string)
    ensures var noted := ledger["$calls" := WithCall(ledger, key, function_)];
            && Noted(noted, key, function_)
            && forall k, f :: k != key ==> (Noted(noted, k, f) <==> Noted(ledger, k, f))
  {
  }

  // ----- how an attempt ends -----------------------------------------------------------------

  /** A task is claimed again after a failure exactly when it was requeued; a parked one is
      not, nor one whose worker died until it is revived. */
  lemma ClaimedAgainExactly(env: Env, w: World, retry: bool)
    requires Allowed(env, w, Fail(retry))
    ensures Allowed(env, Do(env, w, Fail(retry)), Claim) <==> retry
    ensures !Allowed(env, Do(env, w, Crash), Claim) && Allowed(env, Do(env, Do(env, w, Crash), Revive), Claim)
    ensures forall step :: Allowed(env, Do(env, w, Crash), step) ==>
              step.Revive? || Do(env, Do(env, w, Crash), step).phase == Stuck
  {
  }

  predicate HasEnded(w: World) {
    w.phase.Failed? || w.phase.Done?
  }

  /** A parked or finished task stays so: no step of it is run any more, and its ledger,
      its values and its result are what they were. */
  lemma {:induction false} EndedTasksStay(env: Env, w: World, steps: seq<Step>, end: World)
    requires HasEnded(w) && Runs(env, w, steps, end)
    ensures end.phase == w.phase && end.row == w.row && end.values == w.values && end.result == w.result
    ensures end.ran == w.ran && end.runs == w.runs
    decreases |steps|
  {
    if steps != [] {
      EndedTasksStay(env, Do(env, w, steps[0]), steps[1..], end);
    }
  }

  /** A parked task was parked for good: over every run, its paid steps stay run as often as
      they were and it has no result. */
  lemma ParkedForGood(env: Env, w: World, steps: seq<Step>, end: World)
    requires Allowed(env, w, Fail(false)) && Runs(env, Do(env, w, Fail(false)), steps, end)
    ensures end.phase == Failed && end.ran == w.ran && end.row == w.row && end.result == w.result
  {
    EndedTasksStay(env, Do(env, w, Fail(false)), steps, end);
  }

  // ----- what makes a recorded step run again ------------------------------------------------

  /** While an attempt is on, its dict has every entry the row has. */
  ghost predicate Covers(w: World) {
    w.phase.Working? || w.phase.Finishing? ==> w.row.Keys <= w.memory.Keys
  }

  lemma StepKeepsCovers(env: Env, w: World, step: Step)
    requires Covers(w) && Allowed(env, w, step)
    ensures Covers(Do(env, w, step))
  {
  }

  /** Until DONE the row loses no entry: not by a requeue, a park, a crash, nor while the
      ledger's objects are being dropped. */
  lemma StepGrowsRow(env: Env, w: World, step: Step)
    requires Covers(w) && Allowed(env, w, step) && !step.Commit?
    ensures w.row.Keys <= Do(env, w, step).row.Keys
  {
  }

  /** Somewhere on the way an attempt tried to take over step k, found nothing, and called
      for it again although it was recorded. */
  ghost predicate FoundNothing(env: Env, w: World, steps: seq<Step>, k: nat)
    requires k < |env.plan.names|
    decreases |steps|
  {
    steps != [] && Allowed(env, w, steps[0]) &&
    ((steps[0].Invoke? && |w.values| == k && env.plan.names[k] in w.memory)
     || FoundNothing(env, Do(env, w, steps[0]), steps[1..], k))
  }

  predicate BeingRun(w: World, k: nat) {
    w.phase.Working? && w.invoked && |w.values| == k
  }

  /** A step whose checkpoint reached the row is run again only if some attempt found its
      entry unreadable or None. */
  lemma {:induction false} RunAgainOnlyIfNotRead(env: Env, w: World, steps: seq<Step>, end: World, k: nat)
    requires Covers(w) && Runs(env, w, steps, end) && k < |env.plan.names|
    requires (env.plan.names[k] in w.row || w.phase.Done?) && !BeingRun(w, k)
    ensures end.ran[k] == w.ran[k] || FoundNothing(env, w, steps, k)
    decreases |steps|
  {
    if steps != [] && !FoundNothing(env, w, steps, k) {
      var next := Do(env, w, steps[0]);
      StepKeepsCovers(env, w, steps[0]);
      if !steps[0].Commit? {
        StepGrowsRow(env, w, steps[0]);
      }
      RunAgainOnlyIfNotRead(env, next, steps[1..], end, k);
    }
  }

  /** And an attempt finds nothing in a recorded entry exactly when None was recorded, or
      the value went by reference and the store does not answer, the key is refused, or the
      object is gone. */
  lemma NothingFoundExactly(env: Env, w: World, readable: bool, v: Json, key: Option<string>, expires: string)
    requires MidRun(env, w) && !w.invoked && RoundTrips(env.codec, v)
    requires key.Some? ==> env.cfg.store.Some?
    requires key.None? ==> ReferenceIn(v).None?
    requires key.Some? && key.value in w.objects ==> w.objects[key.value] == env.codec.dumps(v)
    requires var name := env.plan.names[|w.values|];
             name in w.memory && w.memory[name] == Entry(env, v, name, key, expires)
    ensures Allowed(env, w, Invoke(readable, JNull, false))
            <==> || v == JNull
                 || (key.Some? && !(readable && CheckedKey(env.cfg.prefix, key.value) && key.value in w.objects))
  {
    if key.Some? {
      var name := env.plan.names[|w.values|];
      RefFields(env.codec, env.cfg.store.value, key.value, |env.codec.dumps(v)|, env.codec.sha(env.codec.dumps(v)),
                ObjectName(env, name), Checkpoint, expires);
    }
  }

  // ----- a crash while the ledger is being dropped ------------------------------------------

  /** The attempt after a worker died between dropping the ledger and the commit. */
  function AfterCrash(env: Env, w: World, kept: set<string>): World
    requires Allowed(env, w, Clear(kept))
  {
    Do(env, Do(env, Do(env, Do(env, w, Clear(kept)), Crash), Revive), Claim)
  }

  lemma ObjectGone(env: Env, objects: Objects, gone: set<string>, ledger: Ledger, k: nat)
    requires k < |env.plan.names| && Live(env, objects, ledger, k)
    ensures Live(env, objects - gone, ledger, k) <==> ObjectOf(env.codec, ledger[env.plan.names[k]]) !! gone
  {
    var ref := ReferenceIn(ledger[env.plan.names[k]]);
    if ref.Some? {
      assert TextOf(env.codec, map[], "key") == "";
      assert ref.value != map[];
    }
  }

  /** Dying there costs no checkpoint, exactly when none of the deleted objects holds one. */
  lemma CrashInFinishExactly(env: Env, w: World, kept: set<string>)
    requires Allowed(env, w, Clear(kept))
    ensures var next := AfterCrash(env, w, kept);
            (forall k: nat :: k < |env.plan.names| && Live(env, w.objects, w.row, k) ==>
              Live(env, next.objects, next.memory, k))
            <==> forall k: nat :: k < |env.plan.names| && Live(env, w.objects, w.row, k) ==>
                   ObjectOf(env.codec, w.row[env.plan.names[k]]) !! (Dropped(env, w.memory) - kept)
  {
    var gone := Dropped(env, w.memory) - kept;
    var next := AfterCrash(env, w, kept);
    forall k: nat | k < |env.plan.names| && Live(env, w.objects, w.row, k)
      ensures Live(env, next.objects, next.memory, k) <==> ObjectOf(env.codec, w.row[env.plan.names[k]]) !! gone
    {
      ObjectGone(env, w.objects, gone, w.row, k);
    }
  }

  // ----- a checkpoint on the row -------------------------------------------------------------

  /** A checkpoint whose write reached the row outlives the worker: the next attempt has it
      and reads the very value that was recorded. */
  lemma CheckpointOutlivesCrash(env: Env, w: World, step: Step)
    requires ValidPlan(env.plan) && step.Record? && step.persists && Allowed(env, w, step)
    requires RoundTrips(env.codec, w.got.value)
    requires if step.key.Some? then CheckedKey(env.cfg.prefix, step.key.value) else ReferenceIn(w.got.value).None?
    ensures var next := Do(env, Do(env, Do(env, Do(env, w, step), Crash), Revive), Claim);
            && env.plan.names[|w.values|] in next.memory
            && Value(env, next.objects, next.memory, |w.values|) == w.got.value
  {
    var name, v := env.plan.names[|w.values|], w.got.value;
    if step.key.Some? {
      var after := w.objects[step.key.value := env.codec.dumps(v)];
      ReferencedCheckpointReadsBack(env.cfg, env.codec, after, step.key.value, v, ObjectName(env, name), step.expires,
                                    JNull);
    }
  }

  /** A checkpoint that landed on its own key reads back exactly when the prefix is clean,
      the key not too long and the first 80 characters of the object's name hold no "..":
      the sanitiser keeps dots, the reader refuses two in a row. */
  lemma LargeCheckpointReadableExactly(env: Env, objects: Objects, v: Json, name: string, hex: string, expires: string)
    requires RoundTrips(env.codec, v) && v != JNull && env.cfg.store.Some?
    requires Trimmed(env.cfg.prefix) && Hex(hex, 32)
    ensures var key := NewKey(env.cfg.prefix, ObjectName(env, name), Checkpoint, hex);
            var after, entry := objects[key := env.codec.dumps(v)], Entry(env, v, name, Some(key), expires);
            CheckpointValue(env.cfg, env.codec, after, entry, true, JNull) == v
            <==> CleanPrefix(env.cfg.prefix) && !DotDot(Shown(ObjectName(env, name))) && |key| <= MAX_KEY_LENGTH
  {
    var key := NewKey(env.cfg.prefix, ObjectName(env, name), Checkpoint, hex);
    var after := objects[key := env.codec.dumps(v)];
    MintedKeyReadableExactly(env.cfg.prefix, ObjectName(env, name), Checkpoint, hex);
    if CheckedKey(env.cfg.prefix, key) {
      ReferencedCheckpointReadsBack(env.cfg, env.codec, after, key, v, ObjectName(env, name), expires, JNull);
    } else {
      RefFields(env.codec, env.cfg.store.value, key, |env.codec.dumps(v)|, env.codec.sha(env.codec.dumps(v)),
                ObjectName(env, name), Checkpoint, expires);
    }
  }

  // ----- a run in which nothing fails --------------------------------------------------------

  /** One step of the handler taken for real, its checkpoint on the row or, with a key, in
      the store. */
  function Ran(env: Env, w: World, v: Json, key: Option<string>): World
    requires MidRun(env, w) && (key.Some? ==> env.cfg.store.Some?)
  {
    var n := |w.values|;
    var ledger := w.memory[CALLS := JNull][env.plan.names[n] := Entry(env, v, env.plan.names[n], key, "")];
    w.(memory := ledger, row := ledger, values := w.values + [v], invoked := false, got := None,
       objects := if key.Some? then w.objects[key.value := env.codec.dumps(v)] else w.objects,
       used := if key.Some? then w.used + {key.value} else w.used,
       runs := w.runs + {(n, w.values, v)}, ran := w.ran + multiset{n})
  }

  /** Nothing after the next step is recorded, and the next step can be run. */
  ghost predicate Fresh(env: Env, w: World) {
    && MidRun(env, w) && !w.invoked && w.got.None?
    && forall j: nat :: |w.values| <= j < |env.plan.names| ==> env.plan.names[j] !in w.memory
  }

  lemma {:induction false} SafeStep(env: Env, w: World, steps: seq<Step>, mid: World, step: Step)
    requires Runs(env, w, steps, mid) && AllSafe(env, w, steps)
    requires Allowed(env, mid, step) && Safe(env, mid, step)
    ensures AllSafe(env, w, steps + [step])
    decreases |steps|
  {
    if steps == [] {
      assert [step][1..] == [];
      assert steps + [step] == [step];
    } else {
      SafeStep(env, Do(env, w, steps[0]), steps[1..], mid, step);
      assert (steps + [step])[1..] == steps[1..] + [step];
    }
  }

  lemma RunForReal(env: Env, w: World, steps: seq<Step>, mid: World, v: Json, key: Option<string>)
    returns (more: seq<Step>)
    requires ValidPlan(env.plan) && Runs(env, w, steps, mid) && Fresh(env, mid)
    requires key.Some? ==> env.cfg.store.Some? && !Inline(env.cfg, env.codec, v)
    ensures Runs(env, w, more, Ran(env, mid, v, key))
    ensures AllSafe(env, w, steps) && Recordable(env, mid, v, key) ==> AllSafe(env, w, more)
  {
    var a := Do(env, mid, Invoke(true, JNull, true));
    var b := Do(env, a, Respond(v));
    var called := steps + [Invoke(true, JNull, true)];
    var answered := called + [Respond(v)];
    RunsStep(env, w, steps, mid, Invoke(true, JNull, true));
    RunsStep(env, w, called, a, Respond(v));
    RunsStep(env, w, answered, b, Record(key, "", true));
    more := answered + [Record(key, "", true)];
    if AllSafe(env, w, steps) && Recordable(env, mid, v, key) {
      SafeStep(env, w, steps, mid, Invoke(true, JNull, true));
      SafeStep(env, w, called, a, Respond(v));
      SafeStep(env, w, answered, b, Record(key, "", true));
    }
  }

  lemma RanIsFresh(env: Env, w: World, v: Json, key: Option<string>)
    requires ValidPlan(env.plan) && Fresh(env, w) && (key.Some? ==> env.cfg.store.Some?)
    ensures |w.values| + 1 < |env.plan.names| ==> Fresh(env, Ran(env, w, v, key))
  {
    assert forall j: nat :: j < |env.plan.names| ==> env.plan.names[j] in env.plan.names;
  }

  lemma {:induction false} NothingFails(env: Env, values: seq<Json>, k: nat) returns (steps: seq<Step>, w: World)
    requires ValidPlan(env.plan) && |values| == |env.plan.names| && k <= |values|
    requires forall i :: 0 <= i < |values| ==> ReferenceIn(values[i]).None?
    ensures Runs(env, START, steps, w) && AllSafe(env, START, steps)
    ensures w.phase.Working? && w.values == values[..k] && (k < |values| ==> Fresh(env, w))
    decreases k
  {
    if k == 0 {
      RunsStep(env, START, [], START, Claim);
      SafeStep(env, START, [], START, Claim);
      steps, w := [] + [Claim], Do(env, START, Claim);
    } else {
      var before;
      steps, before := NothingFails(env, values, k - 1);
      steps := RunForReal(env, START, steps, before, values[k - 1], None);
      w := Ran(env, before, values[k - 1], None);
      RanIsFresh(env, before, values[k - 1], None);
      assert values[..k] == values[..k - 1] + [values[k - 1]];
    }
  }

  /** Every outcome a run without failures can have is really reached by one. */
  lemma FaultFreeRunCommits(env: Env, values: seq<Json>) returns (steps: seq<Step>, end: World)
    requires ValidPlan(env.plan) && |values| == |env.plan.names|
    requires forall i :: 0 <= i < |values| ==> ReferenceIn(values[i]).None?
    ensures Runs(env, START, steps, end) && AllSafe(env, START, steps)
    ensures end.phase.Done? && end.result == Some(env.plan.final(values))
  {
    var w;
    steps, w := NothingFails(env, values, |values|);
    assert values[..|values|] == values;
    var cleared := Do(env, w, Clear({}));
    RunsStep(env, START, steps, w, Clear({}));
    RunsStep(env, START, steps + [Clear({})], cleared, Commit);
    SafeStep(env, START, steps, w, Clear({}));
    SafeStep(env, START, steps + [Clear({})], cleared, Commit);
    steps, end := steps + [Clear({})] + [Commit], Do(env, cleared, Commit);
  }

  // ----- three ways to mix two runs ------------------------------------------------------------

  /** Two steps recorded on the row, the first perhaps in the store, and the attempt over
      its last step. */
  lemma BothRecorded(env: Env, v: Json, u: Json, key: Option<string>) returns (steps: seq<Step>, w: World)
    requires ValidPlan(env.plan) && |env.plan.names| == 2
    requires if key.Some? then env.cfg.store.Some? && !Inline(env.cfg, env.codec, v) else ReferenceIn(v).None?
    requires u != JNull && ReferenceIn(u).None?
    ensures Runs(env, START, steps, w) && w.phase.Working? && |w.values| == 2
    ensures w.row == w.memory && w.row.Keys == {CALLS, env.plan.names[0], env.plan.names[1]}
    ensures w.row[CALLS] == JNull && w.row[env.plan.names[0]] == Entry(env, v, env.plan.names[0], key, "")
    ensures w.row[env.plan.names[1]] == u
    ensures w.objects == if key.Some? then map[key.value := env.codec.dumps(v)] else map[]
  {
    assert env.plan.names[0] != env.plan.names[1];
    assert env.plan.names[0] in env.plan.names && env.plan.names[1] in env.plan.names;
    RunsStep(env, START, [], START, Claim);
    var claimed := Do(env, START, Claim);
    steps := RunForReal(env, START, [] + [Claim], claimed, v, key);
    RanIsFresh(env, claimed, v, key);
    var one := Ran(env, claimed, v, key);
    steps := RunForReal(env, START, steps, one, u, None);
    w := Ran(env, one, u, None);
  }

  /** From a world where the first step finds nothing and the second reads back, a run
      ends in a result no run without failures gives. */
  lemma MixesFromHere(env: Env, steps: seq<Step>, w: World, readable: bool) returns (all: seq<Step>, end: World)
    requires ValidPlan(env.plan) && |env.plan.names| == 2 && Runs(env, START, steps, w) && w.got.None?
    requires w.values == [] && Allowed(env, w, Invoke(readable, JNull, false)) && Live(env, w.objects, w.memory, 1)
    ensures Runs(env, START, all, end) && end.phase.Done? && !FaultFree(env, end, end.values)
  {
    var rest;
    rest, end := InvokeBelowRecordedMixes(env, w, readable, 1);
    RunsAppend(env, START, steps, w, [Invoke(readable, JNull, false)] + rest, end);
    all := steps + ([Invoke(readable, JNull, false)] + rest);
  }

  lemma {:induction false} RunsAppend(env: Env, w: World, a: seq<Step>, mid: World, b: seq<Step>, end: World)
    requires Runs(env, w, a, mid) && Runs(env, mid, b, end)
    ensures Runs(env, w, a + b, end)
    decreases |a|
  {
    if a == [] {
      assert a + b == b;
    } else {
      RunsAppend(env, Do(env, w, a[0]), a[1..], mid, b, end);
      assert (a + b)[1..] == a[1..] + b;
    }
  }

  /** A step that records None is run again on a retry, below a step that reads back. */
  lemma NoneIsNotACheckpoint(env: Env, u: Json) returns (steps: seq<Step>, end: World)
    requires ValidPlan(env.plan) && |env.plan.names| == 2 && u != JNull && ReferenceIn(u).None?
    ensures Runs(env, START, steps, end) && end.phase.Done? && !FaultFree(env, end, end.values)
  {
    var first, w := BothRecorded(env, JNull, u, None);
    RunsStep(env, START, first, w, Fail(true));
    RunsStep(env, START, first + [Fail(true)], Do(env, w, Fail(true)), Claim);
    var again := Do(env, Do(env, w, Fail(true)), Claim);
    steps, end := MixesFromHere(env, first + [Fail(true)] + [Claim], again, true);
  }

  /** So is one whose object could not be read just once. */
  lemma OneFailedReadMixes(env: Env, v: Json, u: Json, key: string) returns (steps: seq<Step>, end: World)
    requires ValidPlan(env.plan) && |env.plan.names| == 2 && u != JNull && ReferenceIn(u).None?
    requires env.cfg.store.Some? && !Inline(env.cfg, env.codec, v)
    ensures Runs(env, START, steps, end) && end.phase.Done? && !FaultFree(env, end, end.values)
  {
    var first, w := BothRecorded(env, v, u, Some(key));
    RunsStep(env, START, first, w, Fail(true));
    RunsStep(env, START, first + [Fail(true)], Do(env, w, Fail(true)), Claim);
    var again := Do(env, Do(env, w, Fail(true)), Claim);
    steps, end := MixesFromHere(env, first + [Fail(true)] + [Claim], again, false);
  }

  /** And so is one whose object was deleted by a finish that did not commit. */
  lemma CrashInFinishMixes(env: Env, v: Json, u: Json, key: string) returns (steps: seq<Step>, end: World)
    requires ValidPlan(env.plan) && |env.plan.names| == 2 && u != JNull && ReferenceIn(u).None?
    requires env.cfg.store.Some? && !Inline(env.cfg, env.codec, v)
    ensures Runs(env, START, steps, end) && end.phase.Done? && !FaultFree(env, end, end.values)
  {
    var first, w := BothRecorded(env, v, u, Some(key));
    var again := AfterCrash(env, w, {});
    var more := CrashRuns(env, first, w, {});
    EntryIsDropped(env, w.memory, v, env.plan.names[0], key);
    AfterCrashIs(env, w, {});
    assert Resumed(env, again, true) == JNull;
    assert Live(env, again.objects, again.memory, 1);
    steps, end := MixesFromHere(env, more, again, true);
  }

  lemma AfterCrashIs(env: Env, w: World, kept: set<string>)
    requires Allowed(env, w, Clear(kept))
    ensures AfterCrash(env, w, kept) ==
            w.(phase := Working, memory := w.row, values := [], invoked := false, got := None,
               objects := w.objects - (Dropped(env, w.memory) - kept))
  {
  }

  lemma CrashRuns(env: Env, steps: seq<Step>, w: World, kept: set<string>) returns (more: seq<Step>)
    requires Runs(env, START, steps, w) && Allowed(env, w, Clear(kept))
    ensures Runs(env, START, more, AfterCrash(env, w, kept))
  {
    var a := Do(env, w, Clear(kept));
    var b := Do(env, a, Crash);
    var c := Do(env, b, Revive);
    RunsStep(env, START, steps, w, Clear(kept));
    RunsStep(env, START, steps + [Clear(kept)], a, Crash);
    more := steps + [Clear(kept)] + [Crash];
    RunsStep(env, START, more, b, Revive);
    RunsStep(env, START, more + [Revive], c, Claim);
    more := more + [Revive] + [Claim];
  }

  lemma EntryIsDropped(env: Env, ledger: Ledger, v: Json, name: string, key: string)
    requires env.cfg.store.Some? && name in ledger && ledger[name] == Entry(env, v, name, Some(key), "")
    ensures ObjectOf(env.codec, ledger[name]) == {key} && key in Dropped(env, ledger)
    ensures forall objects: Objects :: key !in objects ==>
              CheckpointValue(env.cfg, env.codec, objects, ledger[name], true, JNull) == JNull
  {
    RefFields(env.codec, env.cfg.store.value, key, |env.codec.dumps(v)|, env.codec.sha(env.codec.dumps(v)),
              ObjectName(env, name), Checkpoint, "");
    assert key in ObjectOf(env.codec, ledger[name]);
  }

  /** A value kept on the row that is shaped like a reference to somebody's object comes
      back as that object's content: a value no run of the step gave. */
  lemma ShapedValueMixes(env: Env, key: string, data: Bytes, x: Json) returns (steps: seq<Step>, end: World)
    requires ValidPlan(env.plan) && |env.plan.names| == 1 && env.cfg.store.Some? && CheckedKey(env.cfg.prefix, key)
    requires env.codec.loads(data) == Some(x) && x != JNull
    requires x != Frame(RefTo(env.cfg, env.codec, key, data, "", Checkpoint, ""))
    ensures Runs(env, START, steps, end) && end.phase.Done? && end.values == [x]
    ensures !FaultFree(env, end, end.values)
  {
    var v := Frame(RefTo(env.cfg, env.codec, key, data, "", Checkpoint, ""));
    var there := Do(env, START, PutByOther(key, data));
    RunsStep(env, START, [], START, PutByOther(key, data));
    RunsStep(env, START, [] + [PutByOther(key, data)], there, Claim);
    var claimed := Do(env, there, Claim);
    var first := [] + [PutByOther(key, data)] + [Claim];
    var again;
    steps, again := RecordedThenRetried(env, first, claimed, v);
    StoredReadsBack(env.cfg, env.codec, again.objects, key, data, "", Checkpoint, "");
    assert Resumed(env, again, true) == x;
    RunsStep(env, START, steps, again, Skip(true));
    steps, end := ClearedAndCommitted(env, steps + [Skip(true)], Do(env, again, Skip(true)));
    assert (0, end.values[..0], x) !in end.runs;
  }

  /** A handler that has its last value commits it. */
  lemma ClearedAndCommitted(env: Env, steps: seq<Step>, w: World) returns (more: seq<Step>, end: World)
    requires ValidPlan(env.plan) && Runs(env, START, steps, w)
    requires w.phase.Working? && |w.values| == |env.plan.names|
    ensures Runs(env, START, more, end) && end.phase.Done? && end.values == w.values && end.runs == w.runs
  {
    var cleared := Do(env, w, Clear({}));
    RunsStep(env, START, steps, w, Clear({}));
    RunsStep(env, START, steps + [Clear({})], cleared, Commit);
    more, end := steps + [Clear({})] + [Commit], Do(env, cleared, Commit);
  }

  lemma RecordedThenRetried(env: Env, steps: seq<Step>, w: World, v: Json) returns (more: seq<Step>, again: World)
    requires ValidPlan(env.plan) && |env.plan.names| == 1 && Runs(env, START, steps, w) && Fresh(env, w)
    ensures Runs(env, START, more, again) && again.phase.Working? && again.values == [] && !again.invoked
    ensures again.got.None? && env.plan.names[0] in again.memory && again.memory[env.plan.names[0]] == v
    ensures again.objects == w.objects && again.runs == w.runs + {(0, [], v)}
  {
    var a := Do(env, w, Invoke(true, JNull, true));
    var b := Do(env, a, Respond(v));
    var c := Do(env, b, Record(None, "", true));
    var d := Do(env, c, Fail(true));
    RunsStep(env, START, steps, w, Invoke(true, JNull, true));
    more := steps + [Invoke(true, JNull, true)];
    RunsStep(env, START, more, a, Respond(v));
    more := more + [Respond(v)];
    RunsStep(env, START, more, b, Record(None, "", true));
    more := more + [Record(None, "", true)];
    RunsStep(env, START, more, c, Fail(true));
    more := more + [Fail(true)];
    RunsStep(env, START, more, d, Claim);
    more, again := more + [Claim], Do(env, d, Claim);
  }

  /** A checkpoint leaves the row when a store takes it, and its object is where the store
      says it is. */
  lemma LandsExactly(env: Env, v: Json, name: string, hex: string, put: Put, object_: string)
    ensures Landing(env, v, name, hex, put) == Some(object_)
            <==> && env.cfg.inlineMax > 0 && |env.codec.dumps(v)| > env.cfg.inlineMax && env.cfg.store.Some?
                 && put.Landed? && object_ != ""
                 && (if put.name != "" then object_ == put.name
                     else object_ == NewKey(env.cfg.prefix, ObjectName(env, name), Checkpoint, hex))
  {
  }

  // ----- the worker ----------------------------------------------------------------------------------

  /** Where a checkpoint lands: nowhere when it stays on the row. */
  function Landing(env: Env, v: Json, name: string, hex: string, put: Put): Option<string> {
    if Inline(env.cfg, env.codec, v) || env.cfg.store.None? || put.Refused? then None
    else Some(if put.name == "" then NewKey(env.cfg.prefix, ObjectName(env, name), Checkpoint, hex) else put.name)
  }

  /** name_call: the "$calls" entry with this call in it. */
  function WithCall(ledger: Ledger, key: string, function_: string): Json {
    var calls := if CALLS in ledger && ledger[CALLS].JObj? then ledger[CALLS].fields else map[];
    JObj(calls[key := JStr(function_)])
  }

  predicate Noted(ledger: Ledger, key: string, function_: string) {
    && CALLS in ledger && ledger[CALLS].JObj?
    && key in ledger[CALLS].fields && ledger[CALLS].fields[key] == JStr(function_)
  }

  /** One task in one worker: the row, the context's dict, the store, and how far the
      handler is. */
  class TaskRun {
    const env: Env
    const store: SharedStore
    ghost var used: set<string>
    var phase: Phase
    var row: Ledger
    var checkpoints: Ledger
    var values: seq<Json>
    var invoked: bool
    var got: Option<Json>
    var result: Option<Json>
    ghost var runs: set<(nat, seq<Json>, Json)>
    ghost var ran: multiset<nat>

    ghost predicate Valid()
      reads this, store
    {
      store.cfg == env.cfg && store.codec == env.codec
    }

    ghost function State(): World
      reads this, store
    {
      World(phase, row, checkpoints, store.objects, used, values, invoked, got, runs, ran, result)
    }

    constructor (env: Env, store: SharedStore)
      requires store.cfg == env.cfg && store.codec == env.codec && store.objects == map[]
      ensures Valid() && State() == START && this.env == env && this.store == store
    {
      this.env, this.store := env, store;
      phase, row, checkpoints, values, invoked, got, result := Phase.Waiting, map[], map[], [], false, None, None;
      used, runs, ran := {}, {}, multiset{};
    }

    /** The ledger is loaded from the row at claim time. */
    method Claim()
      requires Valid() && phase == Phase.Waiting
      modifies this
      ensures Valid() && State() == Do(env, old(State()), Step.Claim)
    {
      phase, checkpoints, values, invoked, got := Working, row, [], false, None;
    }

    /** resume() of the next step: taken over when it holds a value, else to be run. */
    method Resume(readable: bool) returns (hit: bool)
      requires Valid() && MidRun(env, State()) && !invoked
      modifies this, store
      ensures Valid()
      ensures hit <==> Resumed(env, old(State()), readable) != JNull
      ensures hit ==> State() == Do(env, old(State()), Skip(readable))
      ensures !hit ==> State() == old(State())
    {
      var name := env.plan.names[|values|];
      if name !in checkpoints {
        return false;
      }
      var value := store.DecodeCheckpoint(checkpoints[name], JNull, readable);
      if value == JNull {
        return false;
      }
      values := values + [value];
      return true;
    }

    /** name_call, before the step is run: the call is noted, at once when the row can be
        written; a call noted before is not written again. */
    method NameCall(key: string, function_: string, readable: bool, persists: bool)
      requires Valid() && MidRun(env, State()) && !invoked && Resumed(env, State(), readable) == JNull
      modifies this
      ensures Valid()
      ensures var noted := Noted(old(checkpoints), key, function_);
              State() == Do(env, old(State()), Invoke(readable, WithCall(old(checkpoints), key, function_),
                  persists && !noted))
      ensures Noted(checkpoints, key, function_)
    {
      invoked := true;
      if Noted(checkpoints, key, function_) {
        assert checkpoints[CALLS].fields[key := JStr(function_)] == checkpoints[CALLS].fields;
        assert checkpoints[CALLS := checkpoints[CALLS]] == checkpoints;
        return;
      }
      checkpoints := checkpoints[CALLS := WithCall(checkpoints, key, function_)];
      if persists {
        row := checkpoints;
      }
    }

    /** The provider answers. */
    method Respond(value: Json)
      requires Valid() && MidRun(env, State()) && invoked && got.None?
      modifies this
      ensures Valid() && State() == Do(env, old(State()), Step.Respond(value))
    {
      runs := runs + {(|values|, values, value)};
      ran := ran + multiset{|values|};
      got := Some(value);
    }

    /** checkpoint(): into the dict, and the whole dict onto the row when that works. */
    method Checkpoint(hex: string, put: Put, expires: string, persists: bool)
      requires Valid() && MidRun(env, State()) && got.Some? && RoundTrips(env.codec, got.value)
      modifies this, store
      ensures Valid()
      ensures var name := env.plan.names[|old(values)|];
              State() == Do(env, old(State()), Record(Landing(env, old(got).value, name, hex, put), expires, persists))
    {
      var name, value := env.plan.names[|values|], got.value;
      var entry := EncodeEntry(name, value, hex, put, expires);
      Enter(name, entry, persists);
      values, invoked, got := values + [value], false, None;
    }

    method Enter(name: string, entry: Json, persists: bool)
      requires Valid()
      modifies this`checkpoints, this`row
      ensures Valid() && checkpoints == old(checkpoints)[name := entry]
      ensures row == if persists then checkpoints else old(row)
    {
      checkpoints := checkpoints[name := entry];
      if persists {
        row := checkpoints;
      }
    }

    /** The entry, and its object when it is not kept on the row. */
    method EncodeEntry(name: string, value: Json, hex: string, put: Put, expires: string) returns (entry: Json)
      requires Valid() && RoundTrips(env.codec, value)
      modifies this`used, store
      ensures Valid()
      ensures var key := Landing(env, value, name, hex, put);
              && entry == Entry(env, value, name, key, expires)
              && used == old(used) + (if key.Some? then {key.value} else {})
              && store.objects == if key.Some? then old(store.objects)[key.value := env.codec.dumps(value)]
                                  else old(store.objects)
    {
      entry := store.EncodeCheckpoint(value, ObjectName(env, name), hex, put, expires);
      ghost var key := Landing(env, value, name, hex, put);
      used := used + if key.Some? then {key.value} else {};
    }

    /** Requeue or park: the row's ledger is left alone. */
    method Fail(retry: bool)
      requires Valid() && phase == Working
      modifies this
      ensures Valid() && State() == Do(env, old(State()), Step.Fail(retry))
    {
      phase := if retry then Phase.Waiting else Failed;
    }

    /** discard_replies: the shelved replies of the noted calls go, one delete at a time. */
    method DropReplies(kept: set<string>)
      requires Valid()
      modifies store
      ensures Valid() && store.objects == old(store.objects) - (Replies(env, checkpoints) - kept)
    {
      var calls := CallsIn(checkpoints);
      var todo := calls.Keys - {""};
      ghost var dropped: set<string> := {};
      while todo != {}
        invariant Valid() && todo <= calls.Keys - {""}
        invariant store.objects == old(store.objects) - dropped
        invariant dropped ==
                  (set key | key in calls && key != "" && key !in todo :: ReplyObject(env, calls, key)) - kept
        decreases todo
      {
        var key :| key in todo;
        var gone := {ReplyObject(env, calls, key)} - kept;
        store.objects := store.objects - gone;
        dropped := dropped + gone;
        todo := todo - {key};
        assert old(store.objects) - dropped == store.objects;
      }
    }

    /** The objects the entries refer to go, one delete at a time. */
    method DropObjects(kept: set<string>)
      requires Valid()
      modifies store
      ensures Valid() && store.objects == old(store.objects) - (Referenced(env.codec, checkpoints) - kept)
    {
      var todo := checkpoints.Keys;
      ghost var dropped: set<string> := {};
      while todo != {}
        invariant Valid() && todo <= checkpoints.Keys
        invariant store.objects == old(store.objects) - dropped
        invariant dropped == Referenced(env.codec, checkpoints - todo) - kept
        decreases todo
      {
        var name :| name in todo;
        ghost var was := todo;
        var gone := ObjectOf(env.codec, checkpoints[name]) - kept;
        store.objects := store.objects - gone;
        todo := todo - {name};
        assert todo + {name} == was;
        OneMoreReferenced(env.codec, checkpoints, todo, name);
        dropped := dropped + gone;
        assert old(store.objects) - dropped == store.objects;
      }
      assert checkpoints - {} == checkpoints;
    }

    /** _clear_checkpoints, before anything of the finish is written: replies, then objects.
        `kept` are those a failed delete or the worker's death left. */
    method ClearLedger(kept: set<string>)
      requires Valid() && phase == Working && |values| == |env.plan.names|
      modifies this, store
      ensures Valid() && State() == Do(env, old(State()), Step.Clear(kept))
    {
      phase := Finishing;
      DropReplies(kept);
      DropObjects(kept);
    }

    /** The save: DONE with the result, and an empty ledger on the row. */
    method Commit()
      requires Valid() && phase == Finishing
      modifies this
      ensures Valid() && State() == Do(env, old(State()), Step.Commit)
    {
      phase, result := Done, Some(env.plan.final(values));
      row := map[];
    }
  }

  lemma OneMoreReferenced(c: Codec, ledger: Ledger, todo: set<string>, name: string)
    requires name in ledger && name !in todo
    ensures Referenced(c, ledger - todo) == Referenced(c, ledger - (todo + {name})) + ObjectOf(c, ledger[name])
  {
    var now, before := ledger - todo, ledger - (todo + {name});
    assert now[name] == ledger[name];
    forall key | key in Referenced(c, now) ensures key in Referenced(c, before) + ObjectOf(c, ledger[name]) {
      var other :| other in now && key in ObjectOf(c, now[other]);
      assert other == name || (other in before && before[other] == now[other]);
    }
    forall key | key in Referenced(c, before) + ObjectOf(c, ledger[name]) ensures key in Referenced(c, now) {
      if key in Referenced(c, before) {
        var other :| other in before && key in ObjectOf(c, before[other]);
        assert other in now && now[other] == before[other];
      }
    }
  }
}
