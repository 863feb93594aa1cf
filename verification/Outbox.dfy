/** Transactional emit, comm/actions.py: outbox rows written inside the caller's
    (nested) atomic blocks, as Django's connection keeps them. */
module Outbox {
  import opened Common

  /** One row written on the connection; `path` are the atomic blocks open around it. */
  datatype Row = Row(id: nat, isEvent: bool, path: set<nat>)

  /** An open atomic block; `sid` says whether it took a savepoint, `mark` how many rows
      were pending when it was entered. */
  datatype Frame = Frame(block: nat, sid: bool, mark: nat)

  /** An on_commit callback and the savepoints it was registered under. */
  datatype Hook = Hook(sids: set<nat>, row: Row)

  datatype Fate = Committed | RolledBack

  datatype Connection = Connection(
    frames: seq<Frame>,
    needsRollback: bool,
    pending: seq<Row>,
    hooks: seq<Hook>,
    committed: seq<Row>,
    dispatched: seq<Row>,
    blocks: nat,
    written: nat)

  /** What happened so far: every row that was ever written, how each closed block ended
      and the blocks in which an emit failed. */
  datatype History = History(log: seq<Row>, fates: map<nat, Fate>, spoiled: set<nat>)

  datatype World = World(db: Connection, past: History)

  /** STAPEL_COMM["EMIT_OUTSIDE_ATOMIC"]. */
  datatype Mode = Warn | Refuse | Allow

  /** `stored` and `accepted` are what the database and the payload schema say. */
  datatype Op = Enter(savepoint: bool) | Exit(clean: bool) | Save(stored: bool) | Emit(accepted: bool)

  const START := World(Connection([], false, [], [], [], [], 0, 0), History([], map[], {}))

  // ----- reading the state -----------------------------------------------------------

  function Path(frames: seq<Frame>): set<nat> {
    set f | f in frames :: f.block
  }

  function SavepointIds(frames: seq<Frame>): set<nat> {
    set f | f in frames && f.sid :: f.block
  }

  function Events(rows: seq<Row>): seq<Row> {
    if rows == [] then []
    else Events(rows[..|rows| - 1]) + if rows[|rows| - 1].isEvent then [rows[|rows| - 1]] else []
  }

  function HookRows(hooks: seq<Hook>): seq<Row> {
    seq(|hooks|, i requires 0 <= i < |hooks| => hooks[i].row)
  }

  /** The callbacks that survive a rollback to this savepoint. */
  function Surviving(hooks: seq<Hook>, sid: nat): seq<Hook> {
    if hooks == [] then []
    else Surviving(hooks[..|hooks| - 1], sid) + if sid in hooks[|hooks| - 1].sids then [] else [hooks[|hooks| - 1]]
  }

  // ----- one operation ---------------------------------------------------------------

  /** atomic().__enter__ */
  function EnterBlock(db: Connection, savepoint: bool): Connection {
    var sid := db.frames != [] && savepoint && !db.needsRollback;
    db.(frames := db.frames + [Frame(db.blocks, sid, |db.pending|)], blocks := db.blocks + 1)
  }

  /** How the block on top ends. */
  function FateOf(db: Connection, clean: bool): Fate {
    if clean && !db.needsRollback then Committed else RolledBack
  }

  /** atomic().__exit__ */
  function ExitBlock(db: Connection, clean: bool): Connection
    requires db.frames != []
    requires db.frames[|db.frames| - 1].mark <= |db.pending|
  {
    var top, rest := db.frames[|db.frames| - 1], db.frames[..|db.frames| - 1];
    if clean && !db.needsRollback then
      if rest != [] then db.(frames := rest)
      else db.(frames := [], pending := [], hooks := [],
               committed := db.committed + db.pending, dispatched := db.dispatched + HookRows(db.hooks))
    else if rest == [] then db.(frames := [], pending := [], hooks := [], needsRollback := false)
    else if top.sid then
      db.(frames := rest, needsRollback := false,
          pending := db.pending[..top.mark], hooks := Surviving(db.hooks, top.block))
    else db.(frames := rest, needsRollback := true)
  }

  function NextRow(db: Connection, isEvent: bool): Row {
    Row(db.written, isEvent, Path(db.frames))
  }

  /** A row reaches the database: pending inside a block, visible at once outside. */
  function StoreRow(db: Connection, isEvent: bool): Connection {
    var row := NextRow(db, isEvent);
    var one := db.(written := db.written + 1);
    if db.frames == [] then
      one.(committed := db.committed + [row], dispatched := if isEvent then db.dispatched + [row] else db.dispatched)
    else
      one.(pending := db.pending + [row],
           hooks := if isEvent then db.hooks + [Hook(SavepointIds(db.frames), row)] else db.hooks)
  }

  /** Does the write, or the emit, go through? */
  function Stores(mode: Mode, db: Connection, op: Op): bool
    requires op.Save? || op.Emit?
  {
    match op
    case Save(stored) => stored && !db.needsRollback
    case Emit(accepted) => accepted && !db.needsRollback && (db.frames == [] ==> mode != Refuse)
  }

  predicate Allowed(db: Connection, op: Op) {
    op.Exit? ==> db.frames != [] && db.frames[|db.frames| - 1].mark <= |db.pending|
  }

  function DoDb(mode: Mode, db: Connection, op: Op): Connection
    requires Allowed(db, op)
  {
    match op
    case Enter(savepoint) => EnterBlock(db, savepoint)
    case Exit(clean) => ExitBlock(db, clean)
    case Save(_) =>
      if Stores(mode, db, op) then StoreRow(db, false) else db.(needsRollback := db.frames != [])
    case Emit(_) =>
      if Stores(mode, db, op) then StoreRow(db, true) else db.(needsRollback := db.frames != [])
  }

  function DoPast(mode: Mode, db: Connection, past: History, op: Op): History
    requires Allowed(db, op)
  {
    match op
    case Enter(_) => past
    case Exit(clean) => past.(fates := past.fates[db.frames[|db.frames| - 1].block := FateOf(db, clean)])
    case Save(_) => if Stores(mode, db, op) then past.(log := past.log + [NextRow(db, false)]) else past
    case Emit(_) =>
      if Stores(mode, db, op) then past.(log := past.log + [NextRow(db, true)])
      else if db.frames == [] then past
      else past.(spoiled := past.spoiled + {db.frames[|db.frames| - 1].block})
  }

  function Do(mode: Mode, w: World, op: Op): World
    requires Allowed(w.db, op)
  {
    World(DoDb(mode, w.db, op), DoPast(mode, w.db, w.past, op))
  }

  /** The program ran these operations and stands at `end`. */
  ghost predicate Ran(mode: Mode, w: World, ops: seq<Op>, end: World)
    decreases |ops|
  {
    if ops == [] then end == w else Allowed(w.db, ops[0]) && Ran(mode, Do(mode, w, ops[0]), ops[1..], end)
  }

  // ----- the invariant ---------------------------------------------------------------

  ghost predicate Stacked(db: Connection) {
    && (db.frames == [] ==> db.pending == [] && db.hooks == [] && !db.needsRollback)
    && (db.frames != [] ==> db.frames[0].mark == 0)
    && (forall j :: 0 <= j < |db.frames| ==> db.frames[j].block < db.blocks && db.frames[j].mark <= |db.pending|)
    && (forall j, k :: 0 <= j < k < |db.frames| ==>
          db.frames[j].block < db.frames[k].block && db.frames[j].mark <= db.frames[k].mark)
  }

  /** A pending row lies above a block's mark exactly when it was written inside it. */
  ghost predicate Marked(db: Connection) {
    forall i, j :: 0 <= i < |db.pending| && 0 <= j < |db.frames| ==>
      (db.frames[j].block in db.pending[i].path <==> db.frames[j].mark <= i)
  }

  ghost predicate PathsKnown(db: Connection) {
    && (forall i, b :: 0 <= i < |db.pending| && b in db.pending[i].path ==> b < db.blocks)
    && (forall i, b :: 0 <= i < |db.hooks| && (b in db.hooks[i].sids || b in db.hooks[i].row.path) ==> b < db.blocks)
  }

  /** The callbacks are those of the pending events, in order, each under the savepoints
      its row is under. */
  ghost predicate Hooked(db: Connection) {
    && HookRows(db.hooks) == Events(db.pending)
    && (forall i, j :: 0 <= i < |db.hooks| && 0 <= j < |db.frames| && db.frames[j].sid ==>
          (db.frames[j].block in db.hooks[i].sids <==> db.frames[j].block in db.hooks[i].row.path))
  }

  ghost predicate Ended(past: History, b: nat, fate: Fate) {
    b in past.fates && past.fates[b] == fate
  }

  ghost predicate AllCommitted(past: History, row: Row) {
    forall b :: b in row.path ==> Ended(past, b, Committed)
  }

  ghost predicate SomeRolledBack(past: History, row: Row) {
    exists b :: b in row.path && Ended(past, b, RolledBack)
  }

  /** Blocks are open or have ended. */
  ghost predicate Accounted(w: World) {
    && (forall b :: b in w.past.fates ==> b < w.db.blocks && b !in Path(w.db.frames))
    && (forall i, b :: 0 <= i < |w.db.pending| && b in w.db.pending[i].path ==>
      b in w.past.fates || b in Path(w.db.frames))
  }

  /** A pending row under a rolled-back block is doomed: the flag is up, and every
      savepoint it could be rolled back to lies below it. */
  ghost predicate Doomed(w: World) {
    forall i :: 0 <= i < |w.db.pending| && SomeRolledBack(w.past, w.db.pending[i]) ==>
      w.db.needsRollback && SavepointIds(w.db.frames) <= w.db.pending[i].path
  }

  ghost predicate Settled(w: World) {
    && (forall i :: 0 <= i < |w.db.committed| ==> AllCommitted(w.past, w.db.committed[i]))
    && (forall i :: 0 <= i < |w.past.log| ==>
          w.past.log[i] in w.db.committed || w.past.log[i] in w.db.pending || SomeRolledBack(w.past, w.past.log[i]))
    && (forall row :: row in w.db.committed || row in w.db.pending ==> row in w.past.log)
  }

  ghost predicate Increasing(rows: seq<Row>) {
    forall i, j :: 0 <= i < j < |rows| ==> rows[i].id < rows[j].id
  }

  ghost predicate Numbered(db: Connection) {
    && Increasing(db.committed + db.pending)
    && (forall row :: row in db.committed + db.pending ==> row.id < db.written)
  }

  /** A block in which an emit failed is being rolled back, or has been. */
  ghost predicate Spoiled(w: World) {
    forall b :: b in w.past.spoiled ==>
      Ended(w.past, b, RolledBack) || (w.db.needsRollback && NoSavepointFrom(w.db.frames, b))
  }

  ghost predicate NoSavepointFrom(frames: seq<Frame>, b: nat) {
    exists j :: 0 <= j < |frames| && frames[j].block == b && forall k :: j < k < |frames| ==> !frames[k].sid
  }

  lemma OpenBelowNoSavepoint(frames: seq<Frame>, b: nat) returns (j: nat)
    requires NoSavepointFrom(frames, b)
    ensures j < |frames| && frames[j].block == b && forall k :: j < k < |frames| ==> !frames[k].sid
  {
    j :| 0 <= j < |frames| && frames[j].block == b && forall k :: j < k < |frames| ==> !frames[k].sid;
  }

  ghost predicate DbInv(db: Connection) {
    Stacked(db) && Marked(db) && PathsKnown(db) && Hooked(db) && Numbered(db) && db.dispatched == Events(db.committed)
  }

  ghost predicate Inv(w: World) {
    DbInv(w.db) && Accounted(w) && Doomed(w) && Settled(w) && Spoiled(w)
  }

  // ----- sequences of rows -----------------------------------------------------------

  lemma {:induction false} EventsOfConcat(a: seq<Row>, b: seq<Row>)
    ensures Events(a + b) == Events(a) + Events(b)
    decreases |b|
  {
    if b == [] {
      assert a + b == a;
    } else {
      var front := b[..|b| - 1];
      assert (a + b)[..|a + b| - 1] == a + front;
      EventsOfConcat(a, front);
    }
  }

  lemma EventsOfOne(row: Row)
    ensures Events([row]) == if row.isEvent then [row] else []
  {
    assert [row][..0] == [];
  }

  lemma HookRowsOfFront(hooks: seq<Hook>, rows: seq<Row>)
    requires rows != [] && HookRows(hooks) == Events(rows)
    ensures var last := rows[|rows| - 1];
            var n := if last.isEvent then |hooks| - 1 else |hooks|;
            && 0 <= n <= |hooks| && HookRows(hooks[..n]) == Events(rows[..|rows| - 1])
            && (last.isEvent ==> hooks[|hooks| - 1].row == last)
  {
    var last := rows[|rows| - 1];
    assert |HookRows(hooks)| == |hooks|;
    if last.isEvent {
      assert HookRows(hooks)[|hooks| - 1] == last;
      assert HookRows(hooks[..|hooks| - 1]) == HookRows(hooks)[..|hooks| - 1];
    } else {
      assert hooks[..|hooks|] == hooks;
    }
  }

  /** Rolling back to a savepoint drops from the callbacks what it drops from the rows. */
  lemma {:induction false} SurvivingMatchesTruncation(hooks: seq<Hook>, rows: seq<Row>, sid: nat, mark: nat)
    requires HookRows(hooks) == Events(rows) && mark <= |rows|
    requires forall i :: 0 <= i < |hooks| ==> (sid in hooks[i].sids <==> sid in hooks[i].row.path)
    requires forall i :: 0 <= i < |rows| ==> (sid in rows[i].path <==> mark <= i)
    ensures HookRows(Surviving(hooks, sid)) == Events(rows[..mark])
    ensures forall h :: h in Surviving(hooks, sid) ==> h in hooks
    decreases |rows|
  {
    if rows == [] {
      assert rows[..mark] == [] && hooks == [];
    } else {
      var front, last := rows[..|rows| - 1], rows[|rows| - 1];
      HookRowsOfFront(hooks, rows);
      var hooked := if last.isEvent then hooks[..|hooks| - 1] else hooks[..|hooks|];
      SurvivingMatchesTruncation(hooked, front, sid, if mark == |rows| then mark - 1 else mark);
      SurvivingOfFront(hooks, hooked, last, sid);
      if mark == |rows| {
        assert rows[..mark] == rows && front[..mark - 1] == front;
      } else {
        assert rows[..mark] == front[..mark];
      }
    }
  }

  lemma SurvivingOfFront(hooks: seq<Hook>, hooked: seq<Hook>, last: Row, sid: nat)
    requires hooked == if last.isEvent && hooks != [] then hooks[..|hooks| - 1] else hooks
    requires last.isEvent ==> hooks != [] && hooks[|hooks| - 1].row == last
    requires last.isEvent ==> (sid in hooks[|hooks| - 1].sids <==> sid in last.path)
    ensures HookRows(Surviving(hooks, sid)) ==
            HookRows(Surviving(hooked, sid)) + (if last.isEvent && sid !in last.path then [last] else [])
    ensures forall h :: h in Surviving(hooks, sid) ==> h in Surviving(hooked, sid) || h in hooks
  {
  }

  // ----- entering a block --------------------------------------------------------------

  lemma EnterKeepsFrames(db: Connection, savepoint: bool)
    requires Stacked(db) && Marked(db) && PathsKnown(db)
    ensures var end := EnterBlock(db, savepoint); Stacked(end) && Marked(end) && PathsKnown(end)
  {
  }

  lemma EnterKeepsHooks(db: Connection, savepoint: bool)
    requires Stacked(db) && PathsKnown(db) && Hooked(db)
    ensures Hooked(EnterBlock(db, savepoint))
  {
  }

  lemma EnterKeepsPaths(db: Connection, savepoint: bool)
    ensures var end := EnterBlock(db, savepoint);
            && Path(end.frames) == Path(db.frames) + {db.blocks}
            && (db.needsRollback ==> SavepointIds(end.frames) == SavepointIds(db.frames))
  {
    var end := EnterBlock(db, savepoint);
    assert end.frames[|db.frames|].block == db.blocks;
    assert forall f :: f in db.frames ==> f in end.frames;
  }

  lemma EnterKeepsSpoiled(w: World, savepoint: bool)
    requires Spoiled(w)
    ensures Spoiled(World(EnterBlock(w.db, savepoint), w.past))
  {
    var end := World(EnterBlock(w.db, savepoint), w.past);
    forall b | b in w.past.spoiled && !Ended(w.past, b, RolledBack)
      ensures end.db.needsRollback && NoSavepointFrom(end.db.frames, b)
    {
      var j := OpenBelowNoSavepoint(w.db.frames, b);
      assert end.db.frames[j].block == b;
    }
  }

  lemma EnterKeepsInv(mode: Mode, w: World, savepoint: bool)
    requires Inv(w)
    ensures Inv(Do(mode, w, Enter(savepoint)))
  {
    EnterKeepsFrames(w.db, savepoint);
    EnterKeepsHooks(w.db, savepoint);
    EnterKeepsPaths(w.db, savepoint);
    EnterKeepsSpoiled(w, savepoint);
  }

  // ----- writing -----------------------------------------------------------------------

  lemma StoreKeepsNumbers(db: Connection, isEvent: bool)
    requires Numbered(db) && (db.frames == [] ==> db.pending == [])
    ensures Numbered(StoreRow(db, isEvent))
  {
    var row, end := NextRow(db, isEvent), StoreRow(db, isEvent);
    var before, now := db.committed + db.pending, end.committed + end.pending;
    assert now == before + [row];
    forall i, j | 0 <= i < j < |now| ensures now[i].id < now[j].id {
      assert now[i] == before[i];
      assert now[j] == if j < |before| then before[j] else row;
    }
  }

  lemma StoreKeepsHookRows(db: Connection, isEvent: bool)
    requires HookRows(db.hooks) == Events(db.pending) && db.frames != []
    ensures HookRows(StoreRow(db, isEvent).hooks) == Events(StoreRow(db, isEvent).pending)
  {
    var row := NextRow(db, isEvent);
    EventsOfOne(row);
    EventsOfConcat(db.pending, [row]);
    assert HookRows(StoreRow(db, isEvent).hooks) == HookRows(db.hooks) + if isEvent then [row] else [];
  }

  lemma StoreKeepsDb(db: Connection, isEvent: bool)
    requires DbInv(db) && !db.needsRollback
    ensures DbInv(StoreRow(db, isEvent))
  {
    StoreKeepsNumbers(db, isEvent);
    if db.frames == [] {
      EventsOfOne(NextRow(db, isEvent));
      EventsOfConcat(db.committed, [NextRow(db, isEvent)]);
    } else {
      StoreKeepsHookRows(db, isEvent);
      StoreKeepsMarks(db, isEvent);
      StoreKeepsHookSids(db, isEvent);
    }
  }

  lemma PathOf(frames: seq<Frame>, j: nat)
    requires j < |frames|
    ensures frames[j].block in Path(frames)
    ensures frames[j].sid ==> frames[j].block in SavepointIds(frames)
  {
    assert frames[j] in frames;
  }

  lemma StoreKeepsMarks(db: Connection, isEvent: bool)
    requires Stacked(db) && Marked(db) && PathsKnown(db) && db.frames != []
    ensures Marked(StoreRow(db, isEvent)) && PathsKnown(StoreRow(db, isEvent))
  {
    forall j | 0 <= j < |db.frames| ensures db.frames[j].block in Path(db.frames) {
      PathOf(db.frames, j);
    }
  }

  lemma StoreKeepsHookSids(db: Connection, isEvent: bool)
    requires Stacked(db) && Hooked(db) && db.frames != []
    requires HookRows(StoreRow(db, isEvent).hooks) == Events(StoreRow(db, isEvent).pending)
    ensures Hooked(StoreRow(db, isEvent))
  {
    forall j | 0 <= j < |db.frames|
      ensures db.frames[j].block in Path(db.frames)
      ensures db.frames[j].sid ==> db.frames[j].block in SavepointIds(db.frames)
    {
      PathOf(db.frames, j);
    }
  }

  lemma StoreKeepsPast(w: World, isEvent: bool)
    requires Accounted(w) && Doomed(w) && Settled(w) && Spoiled(w) && !w.db.needsRollback
    ensures var end := World(StoreRow(w.db, isEvent), w.past.(log := w.past.log + [NextRow(w.db, isEvent)]));
            Accounted(end) && Doomed(end) && Settled(end) && Spoiled(end)
  {
    var row := NextRow(w.db, isEvent);
    var end := World(StoreRow(w.db, isEvent), w.past.(log := w.past.log + [row]));
    assert forall r :: r in w.db.committed ==> r in end.db.committed;
    assert forall r :: r in w.db.pending ==> r in end.db.pending;
    assert row in end.db.committed || row in end.db.pending;
    assert !SomeRolledBack(w.past, row);
    assert forall r :: SomeRolledBack(end.past, r) == SomeRolledBack(w.past, r);
  }

  lemma FailKeepsInv(w: World, spoils: bool)
    requires Inv(w) && w.db.frames != []
    ensures Inv(World(w.db.(needsRollback := true),
                      if spoils then w.past.(spoiled := w.past.spoiled + {w.db.frames[|w.db.frames| - 1].block})
                          else w.past))
  {
  }

  lemma WriteKeepsInv(mode: Mode, w: World, op: Op)
    requires Inv(w) && (op.Save? || op.Emit?)
    ensures Inv(Do(mode, w, op))
  {
    if Stores(mode, w.db, op) {
      StoreKeepsDb(w.db, op.Emit?);
      StoreKeepsPast(w, op.Emit?);
    } else if w.db.frames != [] {
      FailKeepsInv(w, op.Emit?);
    } else {
      assert w.db.(needsRollback := false) == w.db;
    }
  }

  // ----- leaving a block ---------------------------------------------------------------

  lemma PathWithoutTop(frames: seq<Frame>)
    requires frames != [] && forall j, k :: 0 <= j < k < |frames| ==> frames[j].block < frames[k].block
    ensures var top, rest := frames[|frames| - 1], frames[..|frames| - 1];
            && Path(frames) == Path(rest) + {top.block} && top.block !in Path(rest)
            && SavepointIds(rest) <= SavepointIds(frames)
            && (top.sid ==> top.block in SavepointIds(frames))
            && (!top.sid ==> SavepointIds(rest) == SavepointIds(frames))
  {
    var top, rest := frames[|frames| - 1], frames[..|frames| - 1];
    assert frames == rest + [top];
  }

  lemma ExitKeepsHooks(db: Connection, clean: bool)
    requires Stacked(db) && Marked(db) && PathsKnown(db) && Hooked(db) && db.frames != []
    ensures var end := ExitBlock(db, clean); Hooked(end) && PathsKnown(end)
  {
    var end, top := ExitBlock(db, clean), db.frames[|db.frames| - 1];
    if end.frames != [] && (!clean || db.needsRollback) && top.sid {
      SurvivingMatchesTruncation(db.hooks, db.pending, top.block, top.mark);
      forall i | 0 <= i < |end.hooks| ensures end.hooks[i] in db.hooks {
      }
    }
  }

  lemma ExitKeepsDb(db: Connection, clean: bool)
    requires DbInv(db) && db.frames != []
    ensures DbInv(ExitBlock(db, clean))
  {
    var end := ExitBlock(db, clean);
    ExitKeepsHooks(db, clean);
    if end.frames == [] && clean && !db.needsRollback {
      EventsOfConcat(db.committed, db.pending);
      assert end.committed + end.pending == db.committed + db.pending;
    } else {
      assert end.committed + end.pending <= db.committed + db.pending;
    }
  }

  /** The block's fate is entered in the history. */
  function Closed(w: World, clean: bool): World
    requires w.db.frames != [] && w.db.frames[|w.db.frames| - 1].mark <= |w.db.pending|
  {
    var top := w.db.frames[|w.db.frames| - 1].block;
    World(ExitBlock(w.db, clean), w.past.(fates := w.past.fates[top := FateOf(w.db, clean)]))
  }

  lemma ExitKeepsAccounted(w: World, clean: bool)
    requires Stacked(w.db) && Accounted(w) && w.db.frames != []
    ensures Accounted(Closed(w, clean))
  {
    PathWithoutTop(w.db.frames);
    PathOf(w.db.frames, |w.db.frames| - 1);
  }

  lemma EndedStays(w: World, clean: bool, b: nat, fate: Fate)
    requires Stacked(w.db) && Accounted(w) && w.db.frames != [] && Ended(w.past, b, fate)
    ensures Ended(Closed(w, clean).past, b, fate)
  {
    PathOf(w.db.frames, |w.db.frames| - 1);
  }

  lemma ExitKeepsSpoiled(w: World, clean: bool)
    requires Stacked(w.db) && Accounted(w) && Spoiled(w) && w.db.frames != []
    ensures Spoiled(Closed(w, clean))
  {
    var end := Closed(w, clean);
    forall b | b in w.past.spoiled && !Ended(end.past, b, RolledBack)
      ensures end.db.needsRollback && NoSavepointFrom(end.db.frames, b)
    {
      if Ended(w.past, b, RolledBack) {
        EndedStays(w, clean, b, RolledBack);
      } else {
        var j := OpenBelowNoSavepoint(w.db.frames, b);
        assert j < |w.db.frames| - 1;
        assert end.db.frames[j].block == b;
      }
    }
  }

  /** What becomes of a pending row when the block on top ends. */
  lemma RowAtExit(w: World, clean: bool, i: nat)
    requires Stacked(w.db) && Marked(w.db) && Accounted(w) && Doomed(w) && w.db.frames != [] && i < |w.db.pending|
    ensures var end, row := Closed(w, clean), w.db.pending[i];
            && (row in end.db.pending || row in end.db.committed || SomeRolledBack(end.past, row))
            && (FateOf(w.db, clean) == Committed && |w.db.frames| == 1 ==> AllCommitted(end.past, row))
  {
    var end, row, top := Closed(w, clean), w.db.pending[i], w.db.frames[|w.db.frames| - 1];
    PathWithoutTop(w.db.frames);
    if FateOf(w.db, clean) == Committed {
      if |w.db.frames| == 1 {
        assert Path(w.db.frames[..0]) == {};
        assert !SomeRolledBack(w.past, row);
      }
    } else if top.mark <= i {
      assert top.block in row.path && Ended(end.past, top.block, RolledBack);
    } else {
      assert |w.db.frames| > 1;
      assert top.sid ==> end.db.pending[i] == row;
    }
  }

  lemma ExitKeepsSettled(w: World, clean: bool)
    requires Stacked(w.db) && Marked(w.db) && Accounted(w) && Doomed(w) && Settled(w) && w.db.frames != []
    ensures Settled(Closed(w, clean))
  {
    var end := Closed(w, clean);
    forall i | 0 <= i < |end.db.committed| ensures AllCommitted(end.past, end.db.committed[i]) {
      if i < |w.db.committed| {
        forall b | b in end.db.committed[i].path ensures Ended(end.past, b, Committed) {
          EndedStays(w, clean, b, Committed);
        }
      } else {
        RowAtExit(w, clean, i - |w.db.committed|);
      }
    }
    forall i | 0 <= i < |end.past.log|
      ensures end.past.log[i] in end.db.committed || end.past.log[i] in end.db.pending ||
          SomeRolledBack(end.past, end.past.log[i])
    {
      var row := w.past.log[i];
      if row in w.db.pending {
        var k :| 0 <= k < |w.db.pending| && w.db.pending[k] == row;
        RowAtExit(w, clean, k);
      } else if row !in w.db.committed {
        var b :| b in row.path && Ended(w.past, b, RolledBack);
        EndedStays(w, clean, b, RolledBack);
      }
    }
  }

  lemma ExitKeepsDoomed(w: World, clean: bool)
    requires Stacked(w.db) && Marked(w.db) && Accounted(w) && Doomed(w) && w.db.frames != []
    ensures Doomed(Closed(w, clean))
  {
    var end, top := Closed(w, clean), w.db.frames[|w.db.frames| - 1];
    PathWithoutTop(w.db.frames);
    forall i | 0 <= i < |end.db.pending| && SomeRolledBack(end.past, end.db.pending[i])
      ensures end.db.needsRollback && SavepointIds(end.db.frames) <= end.db.pending[i].path
    {
      var row := w.db.pending[i];
      assert end.db.pending[i] == row;
      var b :| b in row.path && Ended(end.past, b, RolledBack);
      if b != top.block {
        assert SomeRolledBack(w.past, row);
      } else {
        UnderAllSavepoints(w.db, i);
      }
    }
  }

  /** A row written in the block on top is under every open savepoint. */
  lemma UnderAllSavepoints(db: Connection, i: nat)
    requires Stacked(db) && Marked(db) && db.frames != [] && i < |db.pending|
    requires db.frames[|db.frames| - 1].block in db.pending[i].path
    ensures SavepointIds(db.frames) <= db.pending[i].path
  {
    forall f | f in db.frames ensures f.block in db.pending[i].path {
      var j :| 0 <= j < |db.frames| && db.frames[j] == f;
    }
  }

  lemma ExitKeepsInv(mode: Mode, w: World, clean: bool)
    requires Inv(w) && w.db.frames != []
    ensures Inv(Do(mode, w, Exit(clean)))
  {
    assert Do(mode, w, Exit(clean)) == Closed(w, clean);
    ExitKeepsDb(w.db, clean);
    ExitKeepsAccounted(w, clean);
    ExitKeepsSpoiled(w, clean);
    ExitKeepsSettled(w, clean);
    ExitKeepsDoomed(w, clean);
  }

  // ----- whole programs ----------------------------------------------------------------

  lemma StepKeepsInv(mode: Mode, w: World, op: Op)
    requires Inv(w) && Allowed(w.db, op)
    ensures Inv(Do(mode, w, op))
  {
    match op {
      case Enter(savepoint) => EnterKeepsInv(mode, w, savepoint);
      case Exit(clean) => ExitKeepsInv(mode, w, clean);
      case Save(_) => WriteKeepsInv(mode, w, op);
      case Emit(_) => WriteKeepsInv(mode, w, op);
    }
  }

  lemma StepOnlyAdds(mode: Mode, w: World, op: Op)
    requires Allowed(w.db, op)
    ensures w.db.committed <= Do(mode, w, op).db.committed && w.db.dispatched <= Do(mode, w, op).db.dispatched
  {
  }

  lemma {:induction false} RunKeepsInv(mode: Mode, w: World, ops: seq<Op>, end: World)
    requires Inv(w) && Ran(mode, w, ops, end)
    ensures Inv(end)
    ensures w.db.committed <= end.db.committed && w.db.dispatched <= end.db.dispatched
    decreases |ops|
  {
    if ops != [] {
      StepKeepsInv(mode, w, ops[0]);
      StepOnlyAdds(mode, w, ops[0]);
      RunKeepsInv(mode, Do(mode, w, ops[0]), ops[1..], end);
    }
  }

  lemma StartIsInv()
    ensures Inv(START)
  {
    assert Events([]) == [] && HookRows([]) == [];
  }

  /** Over any nesting of blocks, left by return or by exception: a row is visible exactly
      when its block and every enclosing one committed. */
  lemma VisibleExactly(mode: Mode, ops: seq<Op>, end: World, row: Row)
    requires Ran(mode, START, ops, end) && row in end.past.log
    ensures row in end.db.committed <==> AllCommitted(end.past, row)
  {
    StartIsInv();
    RunKeepsInv(mode, START, ops, end);
    if AllCommitted(end.past, row) && row in end.db.pending {
      PathOf(end.db.frames, 0);
      assert false;
    }
  }

  /** The events dispatched are the visible ones, each once and in the order written. */
  lemma DispatchedExactly(mode: Mode, ops: seq<Op>, end: World)
    requires Ran(mode, START, ops, end)
    ensures end.db.dispatched == Events(end.db.committed)
    ensures Increasing(end.db.committed)
    ensures forall row :: row in end.db.committed ==> row in end.past.log
  {
    StartIsInv();
    RunKeepsInv(mode, START, ops, end);
    assert forall i :: 0 <= i < |end.db.committed| ==> (end.db.committed + end.db.pending)[i] == end.db.committed[i];
  }

  /** No row written in a block where an emit failed is ever visible, whoever swallowed
      the exception. */
  lemma SpoiledNeverCommits(mode: Mode, ops: seq<Op>, end: World, b: nat, row: Row)
    requires Ran(mode, START, ops, end)
    requires b in end.past.spoiled && b in row.path
    ensures row !in end.db.committed
  {
    StartIsInv();
    RunKeepsInv(mode, START, ops, end);
    SpoiledIsNotCommitted(end, b);
  }

  lemma SpoiledIsNotCommitted(w: World, b: nat)
    requires Accounted(w) && Spoiled(w) && b in w.past.spoiled
    ensures !Ended(w.past, b, Committed)
  {
    if !Ended(w.past, b, RolledBack) {
      var j := OpenBelowNoSavepoint(w.db.frames, b);
      PathOf(w.db.frames, j);
    }
  }

  /** A mutation and an event written in the same block share their fate. */
  lemma TogetherOrNotAtAll(mode: Mode, ops: seq<Op>, end: World, a: Row, b: Row)
    requires Ran(mode, START, ops, end) && a in end.past.log && b in end.past.log && a.path == b.path
    ensures a in end.db.committed <==> b in end.db.committed
  {
    VisibleExactly(mode, ops, end, a);
    VisibleExactly(mode, ops, end, b);
  }

  // ----- the connection as the program sees it -----------------------------------------

  lemma StepKeepsStacked(mode: Mode, db: Connection, op: Op)
    requires Stacked(db) && Allowed(db, op)
    ensures Stacked(DoDb(mode, db, op))
  {
  }

  datatype Error = EmitOutsideAtomic | Failed | BlockExited

  class Database {
    const mode: Mode
    var db: Connection
    ghost var past: History

    ghost predicate Valid()
      reads this
    {
      Stacked(db)
    }

    ghost function State(): World
      reads this
    {
      World(db, past)
    }

    constructor (mode: Mode)
      ensures Valid() && State() == START && this.mode == mode
    {
      this.mode := mode;
      db := START.db;
      past := START.past;
    }

    method Enter(savepoint: bool)
      requires Valid()
      modifies this
      ensures Valid() && State() == Do(mode, old(State()), Op.Enter(savepoint))
    {
      ghost var was := State();
      StepKeepsStacked(mode, db, Op.Enter(savepoint));
      var sid := db.frames != [] && savepoint && !db.needsRollback;
      db := db.(frames := db.frames + [Frame(db.blocks, sid, |db.pending|)], blocks := db.blocks + 1);
      assert db == DoDb(mode, was.db, Op.Enter(savepoint));
    }

    method Exit(clean: bool)
      requires Valid() && db.frames != []
      modifies this
      ensures Valid() && State() == Do(mode, old(State()), Op.Exit(clean))
    {
      StepKeepsStacked(mode, db, Op.Exit(clean));
      past := DoPast(mode, db, past, Op.Exit(clean));
      var top := db.frames[|db.frames| - 1];
      db := db.(frames := db.frames[..|db.frames| - 1]);
      if clean && !db.needsRollback {
        if db.frames == [] {
          db := db.(committed := db.committed + db.pending, pending := []);
          var hooks := db.hooks;
          db := db.(hooks := []);
          RunHooks(hooks);
        }
      } else {
        db := db.(needsRollback := false);
        if db.frames == [] {
          db := db.(pending := [], hooks := []);
        } else if top.sid {
          var kept := Filter(top.block);
          db := db.(pending := db.pending[..top.mark], hooks := kept);
        } else {
          db := db.(needsRollback := true);
        }
      }
    }

    /** Run the callbacks of a committed transaction. */
    method RunHooks(hooks: seq<Hook>)
      modifies this`db
      ensures db == old(db).(dispatched := old(db).dispatched + HookRows(hooks))
    {
      for i := 0 to |hooks|
        invariant db == old(db).(dispatched := old(db).dispatched + HookRows(hooks[..i]))
      {
        assert HookRows(hooks[..i + 1]) == HookRows(hooks[..i]) + [hooks[i].row];
        db := db.(dispatched := db.dispatched + [hooks[i].row]);
      }
      assert hooks[..|hooks|] == hooks;
    }

    /** The callbacks not registered under this savepoint. */
    method Filter(sid: nat) returns (kept: seq<Hook>)
      ensures kept == Surviving(db.hooks, sid)
    {
      kept := [];
      for i := 0 to |db.hooks|
        invariant kept == Surviving(db.hooks[..i], sid)
      {
        assert db.hooks[..i + 1][..i] == db.hooks[..i];
        if sid !in db.hooks[i].sids {
          kept := kept + [db.hooks[i]];
        }
      }
      assert db.hooks[..|db.hooks|] == db.hooks;
    }

    /** The insert itself. */
    method Create(isEvent: bool) returns (row: Row)
      modifies this`db
      ensures row == NextRow(old(db), isEvent)
      ensures db == if old(db).frames == []
                    then old(db).(written := old(db).written + 1, committed := old(db).committed + [row])
                    else old(db).(written := old(db).written + 1, pending := old(db).pending + [row])
    {
      row := Row(db.written, isEvent, Path(db.frames));
      db := db.(written := db.written + 1);
      if db.frames == [] {
        db := db.(committed := db.committed + [row]);
      } else {
        db := db.(pending := db.pending + [row]);
      }
    }

    /** transaction.on_commit: kept inside a block, run at once outside. */
    method OnCommit(row: Row)
      modifies this`db
      ensures db == if old(db).frames == [] then old(db).(dispatched := old(db).dispatched + [row])
                    else old(db).(hooks := old(db).hooks + [Hook(SavepointIds(old(db).frames), row)])
    {
      if db.frames != [] {
        db := db.(hooks := db.hooks + [Hook(SavepointIds(db.frames), row)]);
      } else {
        db := db.(dispatched := db.dispatched + [row]);
      }
    }

    /** _emit_via_outbox: the row and its dispatch on commit. */
    method EmitViaOutbox() returns (row: Row)
      modifies this`db
      ensures row == NextRow(old(db), true) && db == StoreRow(old(db), true)
    {
      row := Create(true);
      OnCommit(row);
    }

    /** A model save inside or outside a block. */
    method Save(stored: bool) returns (r: Result<Row, Error>)
      requires Valid()
      modifies this
      ensures Valid() && State() == Do(mode, old(State()), Op.Save(stored))
      ensures r == if Stores(mode, old(db), Op.Save(stored)) then Ok(NextRow(old(db), false)) else Err(Failed)
    {
      ghost var op, was := Op.Save(stored), State();
      StepKeepsStacked(mode, db, op);
      past := DoPast(mode, db, past, op);
      if !stored || db.needsRollback {
        MarkForRollback();
        r := Err(Failed);
      } else {
        var row := Create(false);
        r := Ok(row);
      }
      assert db == DoDb(mode, was.db, op);
    }

    /** set_rollback(True), where there is a transaction to mark. */
    method MarkForRollback()
      modifies this`db
      ensures db == old(db).(needsRollback := old(db).frames != [] || old(db).needsRollback)
    {
      if db.frames != [] {
        db := db.(needsRollback := true);
      }
    }

    /** emit: the row, its callback, or a transaction that can only roll back. */
    method Emit(accepted: bool) returns (r: Result<Row, Error>)
      requires Valid()
      modifies this
      ensures Valid() && State() == Do(mode, old(State()), Op.Emit(accepted))
      ensures r == if Stores(mode, old(db), Op.Emit(accepted)) then Ok(NextRow(old(db), true))
                   else Err(if old(db).frames == [] && mode == Refuse then EmitOutsideAtomic else Failed)
    {
      StepKeepsStacked(mode, db, Op.Emit(accepted));
      past := DoPast(mode, db, past, Op.Emit(accepted));
      if db.frames == [] && mode == Refuse {
        return Err(EmitOutsideAtomic);
      }
      if !accepted || db.needsRollback {
        MarkForRollback();
        return Err(Failed);
      }
      var row := EmitViaOutbox();
      return Ok(row);
    }
  }

  /** The emitter a mutate_and_emit() block yields. */
  class ScopedEmitter {
    var active: bool
    var events: seq<Row>

    constructor ()
      ensures active && events == []
    {
      active := true;
      events := [];
    }

    /** Inert once its block has exited: the database is not touched at all. */
    method Call(d: Database, accepted: bool) returns (r: Result<Row, Error>)
      requires d.Valid()
      modifies this, d
      ensures d.Valid() && active == old(active)
      ensures !old(active) ==> r == Err(BlockExited) && d.State() == old(d.State()) && events == old(events)
      ensures old(active) ==> d.State() == Do(d.mode, old(d.State()), Emit(accepted))
      ensures old(active) ==> events == old(events) + if r.Ok? then [r.value] else []
      ensures r.Ok? <==> old(active) && Stores(d.mode, old(d.db), Emit(accepted))
      ensures r.Ok? ==> r.value == NextRow(old(d.db), true)
    {
      if !active {
        return Err(BlockExited);
      }
      r := d.Emit(accepted);
      if r.Ok? {
        events := events + [r.value];
      }
    }
  }

  /** Entering a mutate_and_emit() block. */
  method OpenScope(d: Database, savepoint: bool) returns (emitter: ScopedEmitter)
    requires d.Valid()
    modifies d
    ensures d.Valid() && d.State() == Do(d.mode, old(d.State()), Enter(savepoint))
    ensures fresh(emitter) && emitter.active && emitter.events == []
  {
    emitter := new ScopedEmitter();
    d.Enter(savepoint);
  }

  /** Leaving it, by return or by exception: the emitter is inert from here on. */
  method CloseScope(d: Database, emitter: ScopedEmitter, clean: bool)
    requires d.Valid() && d.db.frames != []
    modifies d, emitter
    ensures d.Valid() && d.State() == Do(d.mode, old(d.State()), Exit(clean))
    ensures !emitter.active && emitter.events == old(emitter.events)
  {
    d.Exit(clean);
    emitter.active := false;
  }
}
