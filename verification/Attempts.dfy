/** An attempt of a task whose handler makes one named call and lets its error through:
    comm/nats.py under comm/tasks.py. */
module Attempts {
  import opened Common
  import Recovery
  import T = Tasks

  /** Which of execute()'s branches takes the error: FunctionPayloadTooLarge and
      FunctionNotRegistered have their own, any other is a failed attempt. */
  function EndOf(result: Result<Recovery.Frame, Recovery.CallError>): T.Outcome {
    match result
    case Ok(Success(_)) => T.Succeeded
    case Ok(Failure(tooLarge)) => if tooLarge then T.RefusedValues else T.Raised
    case Err(PayloadTooLarge) => T.RefusedValues
    case Err(NotRegistered) => T.NoResponder
    case Err(CallFailed) => T.Raised
  }

  /** From the wire to the row: the task is done when an answer was on the shelf or came
      over the wire; with none, a provider that is not there costs a grace attempt, a reply
      that did not come or an error a counted one, and a request or an answer too large for
      the wire ends the task. */
  lemma AttemptEndsExactly(key: Recovery.Keys, shelf: Recovery.Shelf, r: Recovery.Request, before: Recovery.Access,
                           fits: bool, wire: Recovery.Wire, meanwhile: Recovery.Shelf, after: Recovery.Access,
                           cfg: T.Config, w: T.World, a: nat, now: real, delay: real)
    requires T.Owners(w) && T.ActiveAt(w, a) && T.Drawn(cfg, w.attempts[a].number, delay)
    requires forall k :: k in shelf.Keys ==> shelf[k].Success?
    requires forall k :: k in meanwhile.Keys ==> meanwhile[k].Success?
    ensures var result := Recovery.Conduct(key, shelf, r, before, fits, wire, meanwhile, after).result;
            var row := w.rows[w.attempts[a].task];
            var next := T.Do(cfg, w, T.Conclude(a, EndOf(result), now, delay)).rows[w.attempts[a].task];
            var hit := r.task.Some? && before.readable && key(r) in shelf;
            var saved := r.task.Some? && after.readable && key(r) in meanwhile;
            && (next.state == T.Done
                <==> hit || (fits && ((wire.Replied? && wire.frame.Success?) || (wire.TimedOut? && saved))))
            && (next.state == T.Pending
                <==> && !hit && fits
                     && match wire {
                          case NoResponder => row.attempts < row.maxAttempts + cfg.grace
                          case TimedOut => !saved && row.attempts < row.maxAttempts
                          case Replied(frame) => frame == Recovery.Failure(false) && row.attempts < row.maxAttempts
                        })
            && (next.state == T.Failed && next.reason == Some(T.Unprocessable)
                <==> !hit && (!fits || wire == Recovery.Replied(Recovery.Failure(true))))
            && next.answered == row.answered + (if !hit && fits && wire.NoResponder? then 0 else 1)
  {
    var result := Recovery.Conduct(key, shelf, r, before, fits, wire, meanwhile, after).result;
    Recovery.RaisesExactly(key, shelf, r, before, fits, wire, meanwhile, after);
    T.GoesOnExactly(cfg, w, a, EndOf(result), now, delay);
    assert T.Owns(w, w.attempts[a]);
  }
}
