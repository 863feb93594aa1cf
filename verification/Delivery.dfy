/** The fan-out of one event, comm/actions.py and comm/delivery_scope.py: every handler
    once, failures sorted into retriable and parked, facts claimed once a delivery. */
module Delivery {
  import opened Common

  datatype Outcome = Returned | Refused | Failed

  /** What a handler does: claim a fact, deliver another event from inside, and in the end
      return, refuse the payload (ValidationError) or fail.  What it does next may depend
      on whether the claim was granted and on whether the inner delivery raised. */
  datatype Handler =
    | Done(outcome: Outcome)
    | Claim(key: string, granted: Handler, denied: Handler)
    | Deliver(handlers: seq<Handler>, delivered: Handler, raised: Handler)

  /** What was observed, with the delivery it happened in (0 is outside any). */
  datatype Note = Ran(scope: nat, handler: nat) | Granted(scope: nat, key: string) | Denied(scope: nat, key: string)

  /** The context variable, the delivery in flight, and the observations so far. */
  datatype Context = Context(claimed: Option<set<string>>, scope: nat, next: nat, log: seq<Note>)

  /** STAPEL_COMM["UNPROCESSABLE_PAYLOAD"] */
  datatype Policy = Park | Raise

  predicate Grants(c: Context, key: string) {
    c.claimed.None? || key !in c.claimed.value
  }

  function AfterClaim(c: Context, key: string): Context {
    if c.claimed.None? then c
    else if key in c.claimed.value then c.(log := c.log + [Denied(c.scope, key)])
    else c.(claimed := Some(c.claimed.value + {key}), log := c.log + [Granted(c.scope, key)])
  }

  predicate Retriable(outcome: Outcome, policy: Policy) {
    outcome.Failed? || (outcome.Refused? && policy.Raise?)
  }

  /** The failures worth retrying, in handler order. */
  function Errors(outcomes: seq<Outcome>, policy: Policy): seq<Outcome> {
    if outcomes == [] then []
    else Errors(outcomes[..|outcomes| - 1], policy)
         + if Retriable(outcomes[|outcomes| - 1], policy) then [outcomes[|outcomes| - 1]] else []
  }

  function Entered(c: Context): Context {
    Context(Some({}), c.next, c.next + 1, c.log)
  }

  function Left(outer: Context, inner: Context): Context {
    inner.(claimed := outer.claimed, scope := outer.scope)
  }

  function Started(c: Context, n: nat): Context {
    c.(log := c.log + [Ran(c.scope, n)])
  }

  function Run(h: Handler, c: Context, policy: Policy): (Context, Outcome)
    decreases h
  {
    match h
    case Done(outcome) => (c, outcome)
    case Claim(key, granted, denied) =>
      if Grants(c, key) then Run(granted, AfterClaim(c, key), policy) else Run(denied, AfterClaim(c, key), policy)
    case Deliver(handlers, delivered, raised) =>
      var (inner, outcomes) := RunAll(handlers, Entered(c), policy);
      if Errors(outcomes, policy) == [] then Run(delivered, Left(c, inner), policy)
      else Run(raised, Left(c, inner), policy)
  }

  function RunAll(handlers: seq<Handler>, c: Context, policy: Policy): (r: (Context, seq<Outcome>))
    ensures |r.1| == |handlers|
    decreases handlers
  {
    if handlers == [] then (c, [])
    else
      var (before, outcomes) := RunAll(handlers[..|handlers| - 1], c, policy);
      var (after, outcome) := Run(handlers[|handlers| - 1], Started(before, |handlers| - 1), policy);
      (after, outcomes + [outcome])
  }

  /** One delivery: a clean scope around the loop, the outer one restored. */
  function FanOut(handlers: seq<Handler>, c: Context, policy: Policy): (Context, seq<Outcome>) {
    var (inner, outcomes) := RunAll(handlers, Entered(c), policy);
    (Left(c, inner), outcomes)
  }

  // ----- what every delivery keeps -------------------------------------------------------

  /** No fact is granted twice in one delivery. */
  ghost predicate GrantedOnce(log: seq<Note>) {
    forall i, j :: 0 <= i < j < |log| && log[i].Granted? ==> log[i] != log[j]
  }

  /** A claim is denied only to a fact this same delivery has already stated. */
  ghost predicate DeniedWithReason(log: seq<Note>) {
    forall j :: 0 <= j < |log| && log[j].Denied? ==> Granted(log[j].scope, log[j].key) in log[..j]
  }

  ghost predicate Sound(c: Context) {
    && c.scope < c.next
    && (forall i :: 0 <= i < |c.log| ==> c.log[i].scope < c.next)
    && (c.claimed.None? <==> c.scope == 0)
    && (c.claimed.Some? ==> forall key :: key in c.claimed.value <==> Granted(c.scope, key) in c.log)
    && GrantedOnce(c.log) && DeniedWithReason(c.log)
  }

  /** A note a handler can add while running in `c`. */
  predicate Inner(c: Context, note: Note) {
    note.scope >= c.next || (note.scope == c.scope && !note.Ran?)
  }

  /** From `c` to `d` only notes of this delivery or of later ones were added. */
  ghost predicate Extends(c: Context, d: Context) {
    && d.scope == c.scope && c.next <= d.next
    && |c.log| <= |d.log| && d.log[..|c.log|] == c.log
    && (forall i :: |c.log| <= i < |d.log| ==> Inner(c, d.log[i]))
  }

  lemma ExtendsTwice(c: Context, d: Context, e: Context)
    requires Extends(c, d) && Extends(d, e)
    ensures Extends(c, e)
  {
    assert forall i :: 0 <= i < |d.log| ==> e.log[i] == e.log[..|d.log|][i];
  }

  lemma LogSound(log: seq<Note>, note: Note)
    requires GrantedOnce(log) && DeniedWithReason(log)
    requires note.Granted? ==> note !in log
    requires note.Denied? ==> Granted(note.scope, note.key) in log
    ensures GrantedOnce(log + [note]) && DeniedWithReason(log + [note])
  {
    var now := log + [note];
    forall j | 0 <= j < |now| && now[j].Denied? ensures Granted(now[j].scope, now[j].key) in now[..j] {
      assert now[..j] == log[..j];
    }
  }

  lemma ClaimKeeps(c: Context, key: string)
    requires Sound(c)
    ensures Sound(AfterClaim(c, key)) && Extends(c, AfterClaim(c, key))
  {
    if c.claimed.Some? {
      LogSound(c.log, if key in c.claimed.value then Denied(c.scope, key) else Granted(c.scope, key));
    }
  }

  lemma EnteredIsSound(c: Context)
    requires Sound(c)
    ensures Sound(Entered(c))
  {
  }

  /** After an inner delivery the outer one goes on with exactly its own claims. */
  lemma LeftKeeps(c: Context, inner: Context)
    requires Sound(c) && Sound(inner) && inner.next > c.next
    requires |c.log| <= |inner.log| && inner.log[..|c.log|] == c.log
    requires forall i :: |c.log| <= i < |inner.log| ==> inner.log[i].scope >= c.next
    ensures Sound(Left(c, inner)) && Extends(c, Left(c, inner))
  {
    forall key ensures Granted(c.scope, key) in c.log <==> Granted(c.scope, key) in inner.log {
      if Granted(c.scope, key) in inner.log {
        var i :| 0 <= i < |inner.log| && inner.log[i] == Granted(c.scope, key);
        assert i < |c.log|;
        assert c.log[i] == inner.log[i];
      }
      if Granted(c.scope, key) in c.log {
        var i :| 0 <= i < |c.log| && c.log[i] == Granted(c.scope, key);
        assert inner.log[..|c.log|][i] == inner.log[i];
      }
    }
  }

  lemma {:induction false} RunKeeps(h: Handler, c: Context, policy: Policy)
    requires Sound(c)
    ensures Sound(Run(h, c, policy).0) && Extends(c, Run(h, c, policy).0)
    decreases h
  {
    match h {
      case Done(_) =>
      case Claim(key, granted, denied) =>
        ClaimKeeps(c, key);
        var rest := if Grants(c, key) then granted else denied;
        RunKeeps(rest, AfterClaim(c, key), policy);
        ExtendsTwice(c, AfterClaim(c, key), Run(rest, AfterClaim(c, key), policy).0);
      case Deliver(handlers, delivered, raised) =>
        var (inner, outcomes) := RunAll(handlers, Entered(c), policy);
        EnteredIsSound(c);
        RunAllKeeps(handlers, Entered(c), policy);
        LeftKeeps(c, inner);
        var rest := if Errors(outcomes, policy) == [] then delivered else raised;
        RunKeeps(rest, Left(c, inner), policy);
        ExtendsTwice(c, Left(c, inner), Run(rest, Left(c, inner), policy).0);
    }
  }

  lemma {:induction false} RunAllKeeps(handlers: seq<Handler>, c: Context, policy: Policy)
    requires Sound(c)
    ensures var d := RunAll(handlers, c, policy).0;
            && Sound(d) && d.scope == c.scope && c.next <= d.next
            && |c.log| <= |d.log| && d.log[..|c.log|] == c.log
            && (forall i :: |c.log| <= i < |d.log| ==> d.log[i].scope == c.scope || d.log[i].scope >= c.next)
    decreases handlers
  {
    if handlers != [] {
      var n := |handlers| - 1;
      RunAllKeeps(handlers[..n], c, policy);
      var before := RunAll(handlers[..n], c, policy).0;
      var started := Started(before, n);
      LogSound(before.log, Ran(before.scope, n));
      StartedIsSound(before, n);
      RunKeeps(handlers[n], started, policy);
      var d := RunAll(handlers, c, policy).0;
      assert d.log[..|started.log|] == started.log;
      assert forall i :: 0 <= i < |started.log| ==> d.log[i] == started.log[i];
    }
  }

  lemma StartedIsSound(before: Context, n: nat)
    requires Sound(before)
    ensures Sound(Started(before, n))
  {
    LogSound(before.log, Ran(before.scope, n));
    var log := before.log + [Ran(before.scope, n)];
    forall key ensures Granted(before.scope, key) in before.log <==> Granted(before.scope, key) in log {
    }
  }

  /** Which way a handler goes on after a claim: granted outside any delivery, and inside one
      exactly when this delivery has not granted that fact before; and the claim is noted. */
  lemma ClaimDecides(c: Context, key: string, granted: Handler, denied: Handler, policy: Policy)
    requires Sound(c)
    ensures var first := c.scope == 0 || Granted(c.scope, key) !in c.log;
            && Run(Claim(key, granted, denied), c, policy)
               == Run(if first then granted else denied, AfterClaim(c, key), policy)
            && AfterClaim(c, key).log == c.log + (if c.scope == 0 then []
                                                  else if first then [Granted(c.scope, key)]
                                                  else [Denied(c.scope, key)])
  {
  }

  /** A fact claimed twice in one delivery: the second claim is denied. */
  lemma SecondClaimDenied(c: Context, key: string, granted: Handler, denied: Handler, other: Handler, policy: Policy)
    requires Sound(c) && c.scope != 0 && Granted(c.scope, key) !in c.log
    ensures var log := c.log + [Granted(c.scope, key)] + [Denied(c.scope, key)];
            Run(Claim(key, Claim(key, granted, denied), other), c, policy)
            == Run(denied, c.(claimed := Some(c.claimed.value + {key}), log := log), policy)
  {
    ClaimKeeps(c, key);
    ClaimDecides(c, key, Claim(key, granted, denied), other, policy);
    assert (c.log + [Granted(c.scope, key)])[|c.log|] == Granted(c.scope, key);
    ClaimDecides(AfterClaim(c, key), key, granted, denied, policy);
  }

  // ----- every handler once ----------------------------------------------------------------

  /** The handlers a delivery ran, in order. */
  function RanIn(log: seq<Note>, scope: nat): seq<nat> {
    if log == [] then []
    else RanIn(log[..|log| - 1], scope)
         + if log[|log| - 1].Ran? && log[|log| - 1].scope == scope then [log[|log| - 1].handler] else []
  }

  lemma {:induction false} RanUnchanged(a: seq<Note>, b: seq<Note>, scope: nat)
    requires |a| <= |b| && b[..|a|] == a
    requires forall i :: |a| <= i < |b| ==> !(b[i].Ran? && b[i].scope == scope)
    ensures RanIn(b, scope) == RanIn(a, scope)
    decreases |b|
  {
    if |a| == |b| {
      assert a == b;
    } else {
      var front := b[..|b| - 1];
      assert front[..|a|] == a;
      RanUnchanged(a, front, scope);
    }
  }

  ghost function UpTo(n: nat): seq<nat> {
    seq(n, i requires 0 <= i < n => i)
  }

  lemma RunsOneMore(h: Handler, c: Context, n: nat, policy: Policy)
    requires Sound(c)
    ensures var d := Run(h, Started(c, n), policy).0;
            Sound(d) && RanIn(d.log, c.scope) == RanIn(c.log, c.scope) + [n]
  {
    var started := Started(c, n);
    StartedIsSound(c, n);
    RunKeeps(h, started, policy);
    assert started.log[..|started.log| - 1] == c.log;
    RanUnchanged(started.log, Run(h, started, policy).0.log, c.scope);
  }

  lemma RunAllUnfolds(handlers: seq<Handler>, c: Context, policy: Policy)
    requires handlers != []
    ensures var n := |handlers| - 1;
            RunAll(handlers, c, policy).0 == Run(handlers[n], Started(RunAll(handlers[..n], c, policy).0, n), policy).0
  {
  }

  lemma UpToGrows(before: seq<nat>, n: nat)
    ensures before + UpTo(n) + [n] == before + UpTo(n + 1)
  {
    assert UpTo(n) + [n] == UpTo(n + 1);
  }

  lemma {:induction false} RunAllRunsEach(handlers: seq<Handler>, c: Context, policy: Policy)
    requires Sound(c)
    ensures RanIn(RunAll(handlers, c, policy).0.log, c.scope) == RanIn(c.log, c.scope) + UpTo(|handlers|)
    decreases |handlers|
  {
    if handlers == [] {
      assert UpTo(0) == [];
    } else {
      var n := |handlers| - 1;
      var before := RunAll(handlers[..n], c, policy).0;
      RunAllKeeps(handlers[..n], c, policy);
      RunAllRunsEach(handlers[..n], c, policy);
      RunAllUnfolds(handlers, c, policy);
      RunsOneMore(handlers[n], before, n, policy);
      UpToGrows(RanIn(c.log, c.scope), n);
    }
  }

  lemma {:induction false} NothingRanYet(log: seq<Note>, scope: nat)
    requires forall i :: 0 <= i < |log| ==> log[i].scope < scope
    ensures RanIn(log, scope) == []
    decreases |log|
  {
    if log != [] {
      NothingRanYet(log[..|log| - 1], scope);
    }
  }

  /** Each delivery runs every handler exactly once and in order, whatever the others do,
      and leaves the delivery around it with exactly the claims it had. */
  lemma FanOutRunsEachOnce(handlers: seq<Handler>, c: Context, policy: Policy)
    requires Sound(c)
    ensures var (d, outcomes) := FanOut(handlers, c, policy);
            && RanIn(d.log, c.next) == UpTo(|handlers|) && |outcomes| == |handlers|
            && d.claimed == c.claimed && d.scope == c.scope
            && RanIn(d.log, c.scope) == RanIn(c.log, c.scope)
            && Sound(d)
  {
    var inner := RunAll(handlers, Entered(c), policy).0;
    EnteredIsSound(c);
    RunAllKeeps(handlers, Entered(c), policy);
    RunAllRunsEach(handlers, Entered(c), policy);
    NothingRanYet(c.log, c.next);
    LeftKeeps(c, inner);
    RanUnchanged(c.log, inner.log, c.scope);
  }

  // ----- a delivery does not depend on what is around it --------------------------------------

  lemma {:induction false} RunDependsOnClaims(h: Handler, c: Context, d: Context, policy: Policy)
    requires c.claimed == d.claimed
    ensures Run(h, c, policy).1 == Run(h, d, policy).1
    ensures Run(h, c, policy).0.claimed == Run(h, d, policy).0.claimed
    decreases h
  {
    match h {
      case Done(_) =>
      case Claim(key, granted, denied) =>
        RunDependsOnClaims(if Grants(c, key) then granted else denied, AfterClaim(c, key), AfterClaim(d, key), policy);
      case Deliver(handlers, delivered, raised) =>
        RunAllDependsOnClaims(handlers, Entered(c), Entered(d), policy);
        var (inner, outcomes) := RunAll(handlers, Entered(c), policy);
        var other := RunAll(handlers, Entered(d), policy).0;
        var rest := if Errors(outcomes, policy) == [] then delivered else raised;
        RunDependsOnClaims(rest, Left(c, inner), Left(d, other), policy);
    }
  }

  lemma {:induction false} RunAllDependsOnClaims(handlers: seq<Handler>, c: Context, d: Context, policy: Policy)
    requires c.claimed == d.claimed
    ensures RunAll(handlers, c, policy).1 == RunAll(handlers, d, policy).1
    ensures RunAll(handlers, c, policy).0.claimed == RunAll(handlers, d, policy).0.claimed
    decreases handlers
  {
    if handlers != [] {
      var n := |handlers| - 1;
      RunAllDependsOnClaims(handlers[..n], c, d, policy);
      var a, b := RunAll(handlers[..n], c, policy).0, RunAll(handlers[..n], d, policy).0;
      RunDependsOnClaims(handlers[n], Started(a, n), Started(b, n), policy);
    }
  }

  /** A redelivery, or a nested one, is free to state everything again. */
  lemma RedeliveryIsFree(handlers: seq<Handler>, c: Context, d: Context, policy: Policy)
    ensures FanOut(handlers, c, policy).1 == FanOut(handlers, d, policy).1
  {
    RunAllDependsOnClaims(handlers, Entered(c), Entered(d), policy);
  }

  // ----- acknowledgement -----------------------------------------------------------------------

  /** A delivery is clean when every handler returned or had its payload parked. */
  predicate Clean(outcomes: seq<Outcome>, policy: Policy) {
    forall i :: 0 <= i < |outcomes| ==> outcomes[i].Returned? || (outcomes[i].Refused? && policy.Park?)
  }

  lemma {:induction false} NoErrorsExactly(outcomes: seq<Outcome>, policy: Policy)
    ensures Errors(outcomes, policy) == [] <==> Clean(outcomes, policy)
    decreases |outcomes|
  {
    if outcomes != [] {
      var front := outcomes[..|outcomes| - 1];
      NoErrorsExactly(front, policy);
      assert forall i :: 0 <= i < |front| ==> front[i] == outcomes[i];
    }
  }

  /** The outbox row and how many deliveries were made for it. */
  datatype OutboxRow = OutboxRow(dispatched: bool, attempts: nat, deliveries: nat)

  /** One call of dispatch_one: what the handlers would do, and whether the flush
      confirms. */
  datatype Try = Try(handlers: seq<Handler>, confirmed: bool)

  const OUTSIDE := Context(None, 0, 1, [])

  predicate Succeeds(t: Try, policy: Policy) {
    t.confirmed && Clean(FanOut(t.handlers, OUTSIDE, policy).1, policy)
  }

  function Dispatch(row: OutboxRow, t: Try, policy: Policy): OutboxRow {
    if row.dispatched then row
    else if t.confirmed && Errors(FanOut(t.handlers, OUTSIDE, policy).1, policy) == [] then
      row.(dispatched := true, deliveries := row.deliveries + 1)
    else row.(attempts := row.attempts + 1, deliveries := row.deliveries + 1)
  }

  function DispatchAll(row: OutboxRow, tries: seq<Try>, policy: Policy): OutboxRow {
    if tries == [] then row else Dispatch(DispatchAll(row, tries[..|tries| - 1], policy), tries[|tries| - 1], policy)
  }

  /** How many deliveries it takes: up to and including the first that succeeds. */
  function Needed(tries: seq<Try>, policy: Policy): nat {
    if tries == [] then 0 else if Succeeds(tries[0], policy) then 1 else 1 + Needed(tries[1..], policy)
  }

  lemma {:induction false} NeededIsFirst(tries: seq<Try>, policy: Policy)
    ensures Needed(tries, policy) <= |tries|
    ensures forall i :: 0 <= i < Needed(tries, policy) - 1 ==> !Succeeds(tries[i], policy)
    ensures (exists i :: 0 <= i < |tries| && Succeeds(tries[i], policy)) ==>
              Needed(tries, policy) > 0 && Succeeds(tries[Needed(tries, policy) - 1], policy)
    ensures (forall i :: 0 <= i < |tries| ==> !Succeeds(tries[i], policy)) ==> Needed(tries, policy) == |tries|
    decreases |tries|
  {
    if tries != [] && !Succeeds(tries[0], policy) {
      NeededIsFirst(tries[1..], policy);
      assert forall i :: 0 < i < |tries| ==> tries[i] == tries[1..][i - 1];
    }
  }

  /** An event is acknowledged exactly when some delivery of it was clean and confirmed;
      it was delivered up to the first such one and never again. */
  lemma {:induction false} AcknowledgedExactly(tries: seq<Try>, policy: Policy)
    ensures var row := DispatchAll(OutboxRow(false, 0, 0), tries, policy);
            && (row.dispatched <==> exists i :: 0 <= i < |tries| && Succeeds(tries[i], policy))
            && row.deliveries == Needed(tries, policy)
            && row.attempts == row.deliveries - (if row.dispatched then 1 else 0)
    decreases |tries|
  {
    if tries != [] {
      var front, last := tries[..|tries| - 1], tries[|tries| - 1];
      AcknowledgedExactly(front, policy);
      NoErrorsExactly(FanOut(last.handlers, OUTSIDE, policy).1, policy);
      NeededOfFront(tries, policy);
      assert forall i :: 0 <= i < |front| ==> front[i] == tries[i];
    }
  }

  lemma {:induction false} NeededOfFront(tries: seq<Try>, policy: Policy)
    requires tries != []
    ensures var front := tries[..|tries| - 1];
            var more := if exists i :: 0 <= i < |front| && Succeeds(front[i], policy) then 0 else 1;
            Needed(tries, policy) == Needed(front, policy) + more
    decreases |tries|
  {
    var front := tries[..|tries| - 1];
    if |tries| > 1 && !Succeeds(tries[0], policy) {
      NeededOfFront(tries[1..], policy);
      assert tries[1..][..|tries| - 2] == front[1..];
      assert forall i :: 0 < i < |front| ==> front[i] == front[1..][i - 1];
      assert forall i :: 0 <= i < |front[1..]| ==> front[1..][i] == front[i + 1];
    } else if |tries| > 1 {
      assert Succeeds(front[0], policy);
    }
  }

  // ----- dispatchers that overlap -----------------------------------------------------------------

  /** One dispatcher between its statements: it has read the row as not dispatched, or it
      has delivered the event and not yet written the outcome. */
  datatype Stage = HasRead | HasDelivered(clean: bool)

  /** One row and the dispatchers at work on it: the first chance after the commit and the
      relay read it without holding it. */
  datatype Dispatching = Dispatching(row: OutboxRow, stages: map<nat, Stage>)

  datatype Move = Look(d: nat) | Hand(d: nat, t: Try) | Mark(d: nat) | Die(d: nat)

  predicate CanMove(w: Dispatching, m: Move) {
    match m
    case Look(d) => d !in w.stages
    case Hand(d, _) => d in w.stages && w.stages[d].HasRead?
    case Mark(d) => d in w.stages && w.stages[d].HasDelivered?
    case Die(d) => d in w.stages
  }

  function Moved(w: Dispatching, m: Move, policy: Policy): Dispatching
    requires CanMove(w, m)
  {
    match m
    case Look(d) => if w.row.dispatched then w else w.(stages := w.stages[d := HasRead])
    case Hand(d, t) =>
      var clean := t.confirmed && Errors(FanOut(t.handlers, OUTSIDE, policy).1, policy) == [];
      w.(row := w.row.(deliveries := w.row.deliveries + 1), stages := w.stages[d := HasDelivered(clean)])
    case Mark(d) =>
      var row := if w.stages[d].clean then w.row.(dispatched := true) else w.row.(attempts := w.row.attempts + 1);
      Dispatching(row, w.stages - {d})
    case Die(d) => w.(stages := w.stages - {d})
  }

  ghost predicate Moves(w: Dispatching, moves: seq<Move>, policy: Policy, end: Dispatching)
    decreases |moves|
  {
    if moves == [] then end == w
    else CanMove(w, moves[0]) && Moves(Moved(w, moves[0], policy), moves[1..], policy, end)
  }

  /** Dispatchers that read the row and have not delivered yet. */
  function Readers(w: Dispatching): set<nat> {
    set d | d in w.stages && w.stages[d].HasRead?
  }

  /** The outcome of a dispatcher that nobody overlaps. */
  lemma AloneIsDispatch(row: OutboxRow, t: Try, policy: Policy, d: nat)
    requires !row.dispatched
    ensures var end := Dispatching(Dispatch(row, t, policy), map[]);
            Moves(Dispatching(row, map[]), [Look(d), Hand(d, t), Mark(d)], policy, end)
  {
    var a := Moved(Dispatching(row, map[]), Look(d), policy);
    var b := Moved(a, Hand(d, t), policy);
    var c := Moved(b, Mark(d), policy);
    assert c == Dispatching(Dispatch(row, t, policy), map[]);
    assert [Look(d), Hand(d, t), Mark(d)][1..] == [Hand(d, t), Mark(d)];
    assert [Hand(d, t), Mark(d)][1..] == [Mark(d)] && [Mark(d)][1..] == [];
    assert Moves(b, [Mark(d)], policy, c);
    assert Moves(a, [Hand(d, t), Mark(d)], policy, c);
  }

  /** A dispatcher can die at any point of its work: the row stays as it is and anyone can
      read it again. */
  lemma DeadDispatchersLeaveTheRow(w: Dispatching, d: nat, policy: Policy)
    requires d in w.stages
    ensures CanMove(w, Die(d))
    ensures var dead := Moved(w, Die(d), policy);
            && dead.row == w.row && CanMove(dead, Look(d))
            && forall other :: other != d ==> (CanMove(w, Mark(other)) <==> CanMove(dead, Mark(other)))
  {
  }

  lemma OneReaderLess(w: Dispatching, next: Dispatching, d: nat)
    requires d in Readers(w) && Readers(next) == Readers(w) - {d}
    ensures |Readers(next)| + 1 == |Readers(w)|
  {
    assert Readers(w) == Readers(next) + {d};
  }

  lemma MoveAfterMark(w: Dispatching, m: Move, policy: Policy)
    requires w.row.dispatched && CanMove(w, m)
    ensures var next := Moved(w, m, policy);
            next.row.dispatched && next.row.deliveries + |Readers(next)| <= w.row.deliveries + |Readers(w)|
  {
    var next := Moved(w, m, policy);
    if m.Look? {
      assert next == w;
    } else {
      assert Readers(next) == Readers(w) - {m.d};
      if m.d in Readers(w) {
        OneReaderLess(w, next, m.d);
      } else {
        assert Readers(next) == Readers(w);
      }
    }
  }

  /** Once the row is marked, only those deliver it again that had read it before: each of
      them at most once. */
  lemma {:induction false} LateDeliveriesAtMost(w: Dispatching, moves: seq<Move>, policy: Policy, end: Dispatching)
    requires w.row.dispatched && Moves(w, moves, policy, end)
    ensures end.row.dispatched && end.row.deliveries <= w.row.deliveries + |Readers(w)|
    decreases |moves|
  {
    if moves != [] {
      MoveAfterMark(w, moves[0], policy);
      LateDeliveriesAtMost(Moved(w, moves[0], policy), moves[1..], policy, end);
    }
  }

  ghost predicate CanBeDelivered(w: Dispatching, policy: Policy) {
    exists moves, end :: Moves(w, moves, policy, end) && end.row.deliveries > w.row.deliveries
  }

  /** Another delivery can still happen exactly when the row is not marked or some
      dispatcher read it before it was. */
  lemma AnotherDeliveryExactly(w: Dispatching, policy: Policy)
    ensures CanBeDelivered(w, policy) <==> !w.row.dispatched || Readers(w) != {}
  {
    if Readers(w) != {} {
      var d :| d in Readers(w);
      ReaderDelivers(w, d, policy);
    } else if !w.row.dispatched {
      var d := NotAmong(w.stages.Keys);
      NewcomerDelivers(w, d, policy);
    } else {
      forall moves, end | Moves(w, moves, policy, end) ensures end.row.deliveries <= w.row.deliveries {
        LateDeliveriesAtMost(w, moves, policy, end);
      }
    }
  }

  lemma ReaderDelivers(w: Dispatching, d: nat, policy: Policy)
    requires d in Readers(w)
    ensures CanBeDelivered(w, policy)
  {
    var hand := Hand(d, Try([], true));
    var next := Moved(w, hand, policy);
    assert [hand][1..] == [];
    assert Moves(w, [hand], policy, next);
  }

  lemma NewcomerDelivers(w: Dispatching, d: nat, policy: Policy)
    requires !w.row.dispatched && d !in w.stages
    ensures CanBeDelivered(w, policy)
  {
    var look, hand := Look(d), Hand(d, Try([], true));
    var a := Moved(w, look, policy);
    var b := Moved(a, hand, policy);
    assert [look, hand][1..] == [hand] && [hand][1..] == [];
    assert Moves(a, [hand], policy, b);
    assert Moves(w, [look, hand], policy, b);
    assert b.row.deliveries == w.row.deliveries + 1;
  }

  lemma {:induction false} NotAmong(taken: set<nat>) returns (d: nat)
    ensures d !in taken && forall other :: other in taken ==> other < d
    decreases |taken|
  {
    if taken == {} {
      d := 0;
    } else {
      var other :| other in taken;
      var rest := taken - {other};
      var above := NotAmong(rest);
      d := if other >= above then other + 1 else above;
      forall x | x in taken ensures x < d {
        if x != other {
          assert x in rest;
        }
      }
    }
  }

  // ----- as the process does it ------------------------------------------------------------------

  lemma RunAllOneMore(handlers: seq<Handler>, i: nat, c: Context, policy: Policy)
    requires i < |handlers|
    ensures var (before, outcomes) := RunAll(handlers[..i], c, policy);
            var (after, outcome) := Run(handlers[i], Started(before, i), policy);
            RunAll(handlers[..i + 1], c, policy) == (after, outcomes + [outcome])
  {
    assert handlers[..i + 1][..i] == handlers[..i];
  }

  lemma ErrorsOneMore(outcomes: seq<Outcome>, outcome: Outcome, policy: Policy)
    ensures Errors(outcomes + [outcome], policy)
            == Errors(outcomes, policy) + if Retriable(outcome, policy) then [outcome] else []
  {
    assert (outcomes + [outcome])[..|outcomes|] == outcomes;
  }

  /** The context variable of delivery_scope.py and the loops that run under it. */
  class Subscribers {
    const policy: Policy
    var claimed: Option<set<string>>
    ghost var scope: nat
    ghost var next: nat
    ghost var log: seq<Note>

    constructor (policy: Policy)
      ensures Now() == OUTSIDE && this.policy == policy
    {
      this.policy := policy;
      claimed, scope, next, log := None, 0, 1, [];
    }

    ghost function Now(): Context
      reads this
    {
      Context(claimed, scope, next, log)
    }

    method ClaimOnce(key: string) returns (granted: bool)
      modifies this
      ensures Now() == AfterClaim(old(Now()), key)
      ensures granted == Grants(old(Now()), key)
    {
      if claimed.None? {
        return true;
      }
      if key in claimed.value {
        log := log + [Denied(scope, key)];
        return false;
      }
      claimed := Some(claimed.value + {key});
      log := log + [Granted(scope, key)];
      return true;
    }

    method RunHandler(h: Handler) returns (outcome: Outcome)
      modifies this
      ensures (Now(), outcome) == Run(h, old(Now()), policy)
      decreases h
    {
      match h {
        case Done(o) =>
          outcome := o;
        case Claim(key, granted, denied) =>
          var ok := ClaimOnce(key);
          if ok {
            outcome := RunHandler(granted);
          } else {
            outcome := RunHandler(denied);
          }
        case Deliver(handlers, delivered, raised) =>
          var errors := DeliverToSubscribers(handlers);
          if errors == [] {
            outcome := RunHandler(delivered);
          } else {
            outcome := RunHandler(raised);
          }
      }
    }

    /** _run_handlers */
    method RunHandlers(handlers: seq<Handler>) returns (retriable: seq<Outcome>)
      modifies this
      ensures Now() == RunAll(handlers, old(Now()), policy).0
      ensures retriable == Errors(RunAll(handlers, old(Now()), policy).1, policy)
      decreases handlers, 0
    {
      retriable := [];
      ghost var outcomes: seq<Outcome> := [];
      for i := 0 to |handlers|
        invariant (Now(), outcomes) == RunAll(handlers[..i], old(Now()), policy)
        invariant retriable == Errors(outcomes, policy)
      {
        RunAllOneMore(handlers, i, old(Now()), policy);
        log := log + [Ran(scope, i)];
        var outcome := RunHandler(handlers[i]);
        ErrorsOneMore(outcomes, outcome, policy);
        outcomes := outcomes + [outcome];
        if outcome == Refused {
          if policy == Raise {
            retriable := retriable + [outcome];
          }
        } else if outcome == Failed {
          retriable := retriable + [outcome];
        }
      }
      assert handlers[..|handlers|] == handlers;
    }

    /** deliver_to_subscribers: the scope is set around the loop and reset after it. */
    method DeliverToSubscribers(handlers: seq<Handler>) returns (retriable: seq<Outcome>)
      modifies this
      ensures Now() == FanOut(handlers, old(Now()), policy).0
      ensures retriable == Errors(FanOut(handlers, old(Now()), policy).1, policy)
      decreases handlers, 1
    {
      var token := claimed;
      ghost var outer := scope;
      claimed, scope, next := Some({}), next, next + 1;
      retriable := RunHandlers(handlers);
      claimed, scope := token, outer;
    }

    /** dispatch_one: acknowledged only after a clean delivery that the flush confirms. */
    method DispatchOne(row: OutboxRow, t: Try) returns (after: OutboxRow)
      modifies this
      ensures after == Dispatch(row, t, policy)
      ensures claimed == old(claimed)
    {
      if row.dispatched {
        return row;
      }
      RedeliveryIsFree(t.handlers, Now(), OUTSIDE, policy);
      var errors := DeliverToSubscribers(t.handlers);
      if errors != [] || !t.confirmed {
        return row.(attempts := row.attempts + 1, deliveries := row.deliveries + 1);
      }
      return row.(dispatched := true, deliveries := row.deliveries + 1);
    }
  }
}
