/** What a program of nested mutate_and_emit() blocks commits, read off the program: the
    connection's flag, savepoints and callback list are proved to do just that. */
module OutboxMeaning {
  import opened Common
  import opened Outbox

  /** A program: writes that go through or not, and blocks left cleanly or by an exception
      their caller swallows. */
  datatype Stmt = Write(isEvent: bool, ok: bool) | Block(savepoint: bool, body: seq<Stmt>, clean: bool)

  // ----- the meaning of a program --------------------------------------------------------------

  /** What a body has done so far: the rows that stand, whether it can only be rolled back,
      and how many blocks and rows there were. */
  datatype Done = Done(rows: seq<Row>, tainted: bool, blocks: nat, written: nat)

  /** A body inside the blocks of `path`.  A block that is left cleanly adds its rows.  One
      that fails takes back its own and nothing else when it has a savepoint, and the whole
      transaction when it has none. */
  function Body(body: seq<Stmt>, path: set<nat>, at: Done): Done
    decreases body, 1
  {
    if body == [] then at else Body(body[1..], path, First(body, path, at))
  }

  /** Its first statement. */
  function First(body: seq<Stmt>, path: set<nat>, at: Done): Done
    requires body != []
    decreases body, 0
  {
    match body[0]
    case Write(isEvent, ok) => Wrote(isEvent, ok && !at.tainted, path, at)
    case Block(savepoint, inside, clean) =>
      Left(at, savepoint, clean, Body(inside, path + {at.blocks}, Nothing(at)))
  }

  /** Nothing done yet in a block entered now. */
  function Nothing(at: Done): Done {
    Done([], at.tainted, at.blocks + 1, at.written)
  }

  function Wrote(isEvent: bool, stored: bool, path: set<nat>, at: Done): Done {
    if stored then at.(rows := at.rows + [Row(at.written, isEvent, path)], written := at.written + 1)
    else at.(tainted := true)
  }

  function Left(at: Done, savepoint: bool, clean: bool, inner: Done): Done {
    if clean && !inner.tainted then inner.(rows := at.rows + inner.rows)
    else if savepoint && !at.tainted then at.(blocks := inner.blocks, written := inner.written)
    else Done(at.rows + inner.rows, true, inner.blocks, inner.written)
  }

  /** A whole program, outside any block: what is visible at its end. */
  function Program(mode: Mode, program: seq<Stmt>, at: Done): Done
    decreases |program|
  {
    if program == [] then at else Program(mode, program[1..], Outermost(mode, program[0], at))
  }

  function Outermost(mode: Mode, s: Stmt, at: Done): Done {
    match s
    case Write(isEvent, ok) =>
      if ok && (isEvent ==> mode != Refuse) then Wrote(isEvent, true, {}, at) else at
    case Block(_, inside, clean) =>
      var inner := Body(inside, {at.blocks}, Nothing(at));
      Done(if clean && !inner.tainted then at.rows + inner.rows else at.rows, false, inner.blocks, inner.written)
  }

  /** The statement spoils what is around it: a write that fails, or a block without a
      savepoint that is left by an exception or spoiled itself. */
  predicate Taints(s: Stmt) {
    match s
    case Write(_, ok) => !ok
    case Block(savepoint, body, clean) => !savepoint && (!clean || exists i :: 0 <= i < |body| && Taints(body[i]))
  }

  predicate SomeTaints(body: seq<Stmt>) {
    exists i :: 0 <= i < |body| && Taints(body[i])
  }

  // ----- the operations of a program -----------------------------------------------------------

  function Ops(body: seq<Stmt>): seq<Op>
    decreases body, 1
  {
    if body == [] then [] else FirstOps(body) + Ops(body[1..])
  }

  function FirstOps(body: seq<Stmt>): seq<Op>
    requires body != []
    decreases body, 0
  {
    match body[0]
    case Write(isEvent, ok) => [if isEvent then Emit(ok) else Save(ok)]
    case Block(savepoint, inside, clean) => [Enter(savepoint)] + Ops(inside) + [Exit(clean)]
  }

  ghost predicate RanDb(mode: Mode, db: Connection, ops: seq<Op>, end: Connection)
    decreases |ops|
  {
    if ops == [] then end == db else Allowed(db, ops[0]) && RanDb(mode, DoDb(mode, db, ops[0]), ops[1..], end)
  }

  lemma RanOne(mode: Mode, db: Connection, op: Op)
    requires Allowed(db, op)
    ensures RanDb(mode, db, [op], DoDb(mode, db, op))
  {
    assert [op][1..] == [];
  }

  lemma {:induction false} RanAppend(mode: Mode, db: Connection, a: seq<Op>, mid: Connection, b: seq<Op>,
                                      end: Connection)
    requires RanDb(mode, db, a, mid) && RanDb(mode, mid, b, end)
    ensures RanDb(mode, db, a + b, end)
    decreases |a|
  {
    if a == [] {
      assert a + b == b;
    } else {
      RanAppend(mode, DoDb(mode, db, a[0]), a[1..], mid, b, end);
      assert (a + b)[1..] == a[1..] + b;
    }
  }

  /** The connection runs the operations it is given in one way. */
  lemma {:induction false} RanOneWay(mode: Mode, w: World, ops: seq<Op>, end: World, db: Connection)
    requires Ran(mode, w, ops, end) && RanDb(mode, w.db, ops, db)
    ensures end.db == db
    decreases |ops|
  {
    if ops != [] {
      RanOneWay(mode, Do(mode, w, ops[0]), ops[1..], end, db);
    }
  }

  // ----- a body, on the connection -------------------------------------------------------------

  /** Since `start` the body has done `at`, and the connection shows just that. */
  ghost predicate Shows(start: Connection, at: Done, db: Connection) {
    && start.frames != [] && db.frames == start.frames
    && db.needsRollback == at.tainted && db.blocks == at.blocks && db.written == at.written
    && db.committed == start.committed && db.dispatched == start.dispatched
    && db.pending == start.pending + at.rows
    && HooksAdded(start, at.rows, db)
  }

  /** The callbacks of before, and those of the rows that stand, under the open savepoints. */
  ghost predicate HooksAdded(start: Connection, rows: seq<Row>, db: Connection) {
    && |start.hooks| <= |db.hooks| && db.hooks[..|start.hooks|] == start.hooks
    && HookRows(db.hooks[|start.hooks|..]) == Events(rows)
    && (forall i :: |start.hooks| <= i < |db.hooks| ==> SavepointIds(start.frames) <= db.hooks[i].sids)
  }

  ghost predicate Known(db: Connection) {
    && (forall f :: f in db.frames ==> f.block < db.blocks && f.mark <= |db.pending|)
    && (forall i, b :: 0 <= i < |db.hooks| && b in db.hooks[i].sids ==> b < db.blocks)
  }

  lemma WriteShows(mode: Mode, start: Connection, at: Done, db: Connection, isEvent: bool, ok: bool)
    returns (end: Connection)
    requires Shows(start, at, db) && Known(db)
    ensures var op := if isEvent then Emit(ok) else Save(ok); end == DoDb(mode, db, op)
    ensures Known(end)
    ensures Shows(start, Wrote(isEvent, ok && !at.tainted, Path(start.frames), at), end)
  {
    var op := if isEvent then Emit(ok) else Save(ok);
    end := DoDb(mode, db, op);
    if ok && !at.tainted {
      var row := Row(at.written, isEvent, Path(start.frames));
      assert end.pending == start.pending + (at.rows + [row]);
      RowAdded(start, at.rows, db, end, row);
    }
  }

  lemma RowAdded(start: Connection, rows: seq<Row>, db: Connection, end: Connection, row: Row)
    requires HooksAdded(start, rows, db) && db.frames == start.frames
    requires end.hooks == if row.isEvent then db.hooks + [Hook(SavepointIds(db.frames), row)] else db.hooks
    ensures HooksAdded(start, rows + [row], end)
  {
    EventsOfOne(row);
    EventsOfConcat(rows, [row]);
    if row.isEvent {
      HookAppended(start, db.hooks, Hook(SavepointIds(db.frames), row));
    }
  }

  lemma HookAppended(start: Connection, hooks: seq<Hook>, hook: Hook)
    requires |start.hooks| <= |hooks| && hooks[..|start.hooks|] == start.hooks
    requires hook.sids == SavepointIds(start.frames)
    ensures (hooks + [hook])[..|start.hooks|] == start.hooks
    ensures HookRows((hooks + [hook])[|start.hooks|..]) == HookRows(hooks[|start.hooks|..]) + [hook.row]
    ensures (hooks + [hook])[|hooks|].sids == hook.sids
  {
    var n := |start.hooks|;
    assert (hooks + [hook])[n..] == hooks[n..] + [hook];
    HookRowsOfOneMore(hooks[n..], hook);
    assert (hooks + [hook])[..n] == hooks[..n];
  }

  lemma HookRowsOfOneMore(hooks: seq<Hook>, hook: Hook)
    ensures HookRows(hooks + [hook]) == HookRows(hooks) + [hook.row]
  {
  }

  /** Dropping what hangs on a savepoint drops the callbacks made since. */
  lemma {:induction false} SurvivorsAreOlder(hooks: seq<Hook>, n: nat, sid: nat)
    requires n <= |hooks|
    requires forall i :: 0 <= i < n ==> sid !in hooks[i].sids
    requires forall i :: n <= i < |hooks| ==> sid in hooks[i].sids
    ensures Surviving(hooks, sid) == hooks[..n]
    decreases |hooks|
  {
    if hooks != [] {
      var front := hooks[..|hooks| - 1];
      SurvivorsAreOlder(front, if n == |hooks| then n - 1 else n, sid);
      if n == |hooks| {
        assert hooks[..n] == front + [hooks[|hooks| - 1]] && front[..n - 1] == front;
      } else {
        assert hooks[..n] == front[..n];
      }
    }
  }

  /** Entering: nothing done inside yet. */
  lemma EnterShows(db: Connection, savepoint: bool)
    requires Known(db)
    ensures var inside := EnterBlock(db, savepoint);
            && Known(inside) && Path(inside.frames) == Path(db.frames) + {db.blocks}
            && Shows(inside, Done([], db.needsRollback, db.blocks + 1, db.written), inside)
  {
    var inside := EnterBlock(db, savepoint);
    EnterKeepsPaths(db, savepoint);
    assert inside.hooks[|inside.hooks|..] == [] && HookRows([]) == Events([]);
    assert inside.pending + [] == inside.pending;
  }

  /** Leaving an inner block: its rows are added, taken back alone, or the transaction is
      marked. */
  lemma ExitShows(start: Connection, at: Done, db: Connection, savepoint: bool, inner: Done, last: Connection,
                  clean: bool)
    requires Shows(start, at, db) && Known(db)
    requires Shows(EnterBlock(db, savepoint), inner, last) && Known(last)
    ensures Allowed(last, Exit(clean))
    ensures Shows(start, Left(at, savepoint, clean, inner), ExitBlock(last, clean)) && Known(ExitBlock(last, clean))
  {
    var inside, end := EnterBlock(db, savepoint), ExitBlock(last, clean);
    var top := inside.frames[|db.frames|];
    assert top in last.frames && last.frames[..|db.frames|] == db.frames;
    assert top in inside.frames;
    if (clean && !inner.tainted) || !top.sid {
      EventsOfConcat(at.rows, inner.rows);
      assert end.pending == start.pending + (at.rows + inner.rows);
      HooksJoin(start, at.rows, db, inside, inner.rows, last);
      assert end.hooks == last.hooks;
    } else {
      assert top.block in SavepointIds(inside.frames);
      SurvivorsAreOlder(last.hooks, |db.hooks|, top.block);
      assert end.hooks == last.hooks[..|db.hooks|] == db.hooks;
      assert end.pending == last.pending[..top.mark] == db.pending;
    }
  }

  lemma HooksJoin(start: Connection, rows: seq<Row>, db: Connection, inside: Connection, more: seq<Row>,
                  last: Connection)
    requires HooksAdded(start, rows, db) && HooksAdded(inside, more, last) && inside.hooks == db.hooks
    requires SavepointIds(start.frames) <= SavepointIds(inside.frames)
    ensures HooksAdded(start, rows + more, last)
  {
    var n, m := |start.hooks|, |db.hooks|;
    EventsOfConcat(rows, more);
    assert last.hooks[n..] == db.hooks[n..] + last.hooks[m..];
    assert HookRows(last.hooks[n..]) == HookRows(db.hooks[n..]) + HookRows(last.hooks[m..]);
    forall i | n <= i < |last.hooks| ensures SavepointIds(start.frames) <= last.hooks[i].sids {
      assert i < m ==> last.hooks[i] == db.hooks[i];
    }
    assert last.hooks[..n] == last.hooks[..m][..n];
  }

  /** The connection runs a body to where its meaning says. */
  lemma {:induction false} BodyShows(mode: Mode, start: Connection, at: Done, db: Connection, body: seq<Stmt>)
    returns (end: Connection)
    requires Shows(start, at, db) && Known(db)
    ensures RanDb(mode, db, Ops(body), end) && Known(end)
    ensures Shows(start, Body(body, Path(start.frames), at), end)
    decreases body, 1
  {
    if body == [] {
      return db;
    }
    var next := FirstShows(mode, start, at, db, body);
    end := BodyShows(mode, start, First(body, Path(start.frames), at), next, body[1..]);
    RanAppend(mode, db, FirstOps(body), next, Ops(body[1..]), end);
  }

  lemma {:induction false} FirstShows(mode: Mode, start: Connection, at: Done, db: Connection, body: seq<Stmt>)
    returns (end: Connection)
    requires Shows(start, at, db) && Known(db) && body != []
    ensures RanDb(mode, db, FirstOps(body), end) && Known(end)
    ensures Shows(start, First(body, Path(start.frames), at), end)
    decreases body, 0
  {
    match body[0]
    case Write(isEvent, ok) =>
      end := WriteShows(mode, start, at, db, isEvent, ok);
      RanOne(mode, db, if isEvent then Emit(ok) else Save(ok));
    case Block(savepoint, inside, clean) =>
      EnterShows(db, savepoint);
      var last := BodyShows(mode, EnterBlock(db, savepoint), Nothing(at), EnterBlock(db, savepoint), inside);
      var inner := Body(inside, Path(start.frames) + {at.blocks}, Nothing(at));
      ExitShows(start, at, db, savepoint, inner, last, clean);
      BlockRuns(mode, db, savepoint, Ops(inside), last, clean);
      end := ExitBlock(last, clean);
  }

  lemma BlockRuns(mode: Mode, db: Connection, savepoint: bool, inside: seq<Op>, last: Connection, clean: bool)
    requires RanDb(mode, EnterBlock(db, savepoint), inside, last) && Allowed(last, Exit(clean))
    ensures RanDb(mode, db, [Enter(savepoint)] + inside + [Exit(clean)], ExitBlock(last, clean))
  {
    RanOne(mode, db, Enter(savepoint));
    RanOne(mode, last, Exit(clean));
    RanAppend(mode, db, [Enter(savepoint)], EnterBlock(db, savepoint), inside, last);
    RanAppend(mode, db, [Enter(savepoint)] + inside, last, [Exit(clean)], ExitBlock(last, clean));
  }

  // ----- a whole program -----------------------------------------------------------------------

  /** Outside any block, with these rows visible and their events dispatched. */
  ghost predicate Stands(at: Done, db: Connection) {
    && !at.tainted && db.frames == [] && !db.needsRollback && db.pending == [] && db.hooks == []
    && db.committed == at.rows && db.dispatched == Events(at.rows)
    && db.blocks == at.blocks && db.written == at.written
  }

  lemma WriteStands(mode: Mode, at: Done, db: Connection, isEvent: bool, ok: bool)
    requires Stands(at, db)
    ensures Stands(Outermost(mode, Write(isEvent, ok), at), DoDb(mode, db, if isEvent then Emit(ok) else Save(ok)))
  {
    var row := Row(at.written, isEvent, {});
    assert Path([]) == {};
    EventsOfOne(row);
    EventsOfConcat(at.rows, [row]);
  }

  /** An outermost block: all of it or nothing. */
  lemma BlockStands(mode: Mode, at: Done, db: Connection, savepoint: bool, inside: seq<Stmt>, clean: bool)
    returns (end: Connection)
    requires Stands(at, db)
    ensures RanDb(mode, db, [Enter(savepoint)] + Ops(inside) + [Exit(clean)], end)
    ensures Stands(Outermost(mode, Block(savepoint, inside, clean), at), end)
  {
    var open := EnterBlock(db, savepoint);
    EnterShows(db, savepoint);
    assert Path(db.frames) == {} && Path(open.frames) == {at.blocks};
    var last := BodyShows(mode, open, Nothing(at), open, inside);
    var inner := Body(inside, {at.blocks}, Nothing(at));
    assert open.frames[0] in open.frames;
    BlockRuns(mode, db, savepoint, Ops(inside), last, clean);
    end := ExitBlock(last, clean);
    EventsOfConcat(at.rows, inner.rows);
    assert last.hooks[0..] == last.hooks && last.pending == inner.rows;
  }

  lemma {:induction false} ProgramStands(mode: Mode, at: Done, db: Connection, program: seq<Stmt>)
    returns (end: Connection)
    requires Stands(at, db)
    ensures RanDb(mode, db, Ops(program), end) && Stands(Program(mode, program, at), end)
    decreases |program|
  {
    if program == [] {
      return db;
    }
    var next;
    match program[0] {
      case Write(isEvent, ok) =>
        next := DoDb(mode, db, if isEvent then Emit(ok) else Save(ok));
        WriteStands(mode, at, db, isEvent, ok);
        RanOne(mode, db, if isEvent then Emit(ok) else Save(ok));
      case Block(savepoint, inside, clean) =>
        next := BlockStands(mode, at, db, savepoint, inside, clean);
    }
    end := ProgramStands(mode, Outermost(mode, program[0], at), next, program[1..]);
    RanAppend(mode, db, FirstOps(program), next, Ops(program[1..]), end);
  }

  /** What a program of nested blocks leaves visible and what it dispatches are those its
      meaning says: the flag, the savepoints and the callback list do nothing else. */
  lemma ProgramCommits(mode: Mode, program: seq<Stmt>, end: World)
    requires Ran(mode, START, Ops(program), end)
    ensures end.db.committed == Program(mode, program, Done([], false, 0, 0)).rows
    ensures end.db.dispatched == Events(Program(mode, program, Done([], false, 0, 0)).rows)
    ensures end.db.frames == [] && end.db.pending == [] && end.db.hooks == [] && !end.db.needsRollback
  {
    var db := ProgramStands(mode, Done([], false, 0, 0), START.db, program);
    RanOneWay(mode, START, Ops(program), end, db);
  }

  // ----- read off the statements ---------------------------------------------------------------

  /** A body can only be rolled back exactly when it could before or a statement taints it. */
  lemma {:induction false} TaintedExactly(body: seq<Stmt>, path: set<nat>, at: Done)
    ensures Body(body, path, at).tainted <==> at.tainted || SomeTaints(body)
    decreases body
  {
    if body != [] {
      var rest := body[1..];
      assert SomeTaints(body) <==> Taints(body[0]) || SomeTaints(rest) by {
        if SomeTaints(rest) {
          var i :| 0 <= i < |rest| && Taints(rest[i]);
          assert body[i + 1] == rest[i];
        }
        if i :| 0 < i < |body| && Taints(body[i]) {
          assert rest[i - 1] == body[i];
        }
      }
      if body[0].Block? {
        TaintedExactly(body[0].body, path + {at.blocks}, Nothing(at));
      }
      TaintedExactly(rest, path, First(body, path, at));
    }
  }

  /** An outermost block left cleanly commits its rows exactly when no write failed in it
      outside a savepoint that was rolled back; left by an exception it commits nothing. */
  lemma OutermostCommitsExactly(mode: Mode, at: Done, db: Connection, savepoint: bool, inside: seq<Stmt>, clean: bool)
    returns (end: Connection)
    requires Stands(at, db)
    ensures RanDb(mode, db, [Enter(savepoint)] + Ops(inside) + [Exit(clean)], end)
    ensures var rows := Body(inside, {at.blocks}, Nothing(at)).rows;
            && end.committed == db.committed + (if clean && !SomeTaints(inside) then rows else [])
            && end.dispatched == db.dispatched + (if clean && !SomeTaints(inside) then Events(rows) else [])
  {
    end := BlockStands(mode, at, db, savepoint, inside, clean);
    TaintedExactly(inside, {at.blocks}, Nothing(at));
    EventsOfConcat(at.rows, Body(inside, {at.blocks}, Nothing(at)).rows);
  }

  /** A nested block that fails is undone alone: whatever was done in it, the blocks around
      it, their rows, their callbacks and the flag are as they were. */
  lemma InnerFailsAlone(mode: Mode, start: Connection, at: Done, db: Connection, inside: seq<Stmt>)
    returns (end: Connection)
    requires Shows(start, at, db) && Known(db) && !db.needsRollback
    ensures RanDb(mode, db, [Enter(true)] + Ops(inside) + [Exit(false)], end)
    ensures end == db.(blocks := end.blocks, written := end.written)
  {
    var open := EnterBlock(db, true);
    EnterShows(db, true);
    var last := BodyShows(mode, open, Nothing(at), open, inside);
    BlockRuns(mode, db, true, Ops(inside), last, false);
    assert Path(open.frames) == Path(start.frames) + {at.blocks};
    var top := open.frames[|db.frames|];
    assert top in open.frames && top.block in SavepointIds(open.frames);
    assert last.frames[..|db.frames|] == db.frames;
    SurvivorsAreOlder(last.hooks, |db.hooks|, top.block);
    end := ExitBlock(last, false);
    assert end.hooks == db.hooks && end.pending == db.pending;
  }
}
