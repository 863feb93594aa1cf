/** Whole runs of a projection: any order and any duplication of deliveries, mixed with
    the owner's own updates and with rebuilds from its snapshots. */
module ProjectionRuns {
  import opened Common
  import opened Projections

  /** Two usable events about the same row. */
  predicate SameRow(p: Projection, e: Event, f: Event) {
    Usable(p, e) && Usable(p, f) && KeyOf(p, e) == KeyOf(p, f)
  }

  predicate Older(p: Projection, e: Event, f: Event)
    requires SameRow(p, e, f)
  {
    PositionOf(p, e).value < PositionOf(p, f).value
  }

  /** Nothing `e` wrote is left behind once `f` is written over it: updates are partial. */
  predicate Covers(p: Projection, e: Event, f: Event) {
    p.columns + p.apply(e) + p.apply(f) == p.columns + p.apply(f)
  }

  ghost predicate DistinctPositions(p: Projection, events: set<Event>) {
    forall e, f :: e in events && f in events && SameRow(p, e, f) && PositionOf(p, e) == PositionOf(p, f) ==> e == f
  }

  /** An event id names one point in the row's life. */
  ghost predicate Immutable(p: Projection, events: set<Event>) {
    forall e, f :: e in events && f in events && SameRow(p, e, f) && e.id != "" && e.id == f.id ==> !Older(p, e, f)
  }

  ghost predicate AllCover(p: Projection, events: set<Event>) {
    forall e, f :: e in events && f in events && SameRow(p, e, f) && Older(p, e, f) ==> Covers(p, e, f)
  }

  /** The newest of its row among `events`. */
  ghost predicate IsTop(p: Projection, events: set<Event>, e: Event) {
    e in events && Usable(p, e) && (forall f :: f in events && SameRow(p, e, f) ==> !Older(p, e, f))
  }

  /** The row says what `e` said; a rebuilt row does not know the event's id. */
  predicate Reflects(p: Projection, row: Row, e: Event, exactId: bool)
    requires Usable(p, e)
  {
    && row.position == PositionOf(p, e).value
    && row.fields == p.columns + p.apply(e)
    && (row.eventId == e.id || (!exactId && row.eventId == ""))
  }

  ghost predicate RowIsTop(p: Projection, events: set<Event>, key: string, row: Row, exactId: bool) {
    exists e :: IsTop(p, events, e) && KeyOf(p, e) == Some(key) && Reflects(p, row, e, exactId)
  }

  /** The table is the newest event of every row, and nothing else. */
  ghost predicate TopRows(p: Projection, events: set<Event>, table: Table, exactId: bool) {
    && (forall key :: key in table ==> RowIsTop(p, events, key, table[key], exactId))
    && (forall e :: e in events && Usable(p, e) ==> KeyOf(p, e).value in table)
  }

  ghost predicate Compatible(p: Projection, events: set<Event>) {
    DistinctPositions(p, events) && Immutable(p, events) && AllCover(p, events)
  }

  lemma TopOf(p: Projection, events: set<Event>, table: Table, key: string, exactId: bool) returns (e: Event)
    requires TopRows(p, events, table, exactId) && key in table
    ensures IsTop(p, events, e) && KeyOf(p, e) == Some(key) && Reflects(p, table[key], e, exactId)
  {
    assert RowIsTop(p, events, key, table[key], exactId);
    e :| IsTop(p, events, e) && KeyOf(p, e) == Some(key) && Reflects(p, table[key], e, exactId);
  }

  // ----- one delivery --------------------------------------------------------------

  lemma UnusableChangesNothing(p: Projection, table: Table, e: Event, guarded: bool)
    requires !Usable(p, e)
    ensures After(p, table, e, guarded) == table
  {
  }

  /** The exact-redelivery test refuses only what the position test refuses as well. */
  lemma GuardAgrees(p: Projection, events: set<Event>, table: Table, e: Event, exactId: bool)
    requires TopRows(p, events, table, exactId) && Immutable(p, events + {e})
    ensures Upsert(p, table, e, true) == Upsert(p, table, e, false) || !Usable(p, e)
  {
    if Usable(p, e) && KeyOf(p, e).value in table && SameDelivery(table[KeyOf(p, e).value], e) {
      var key := KeyOf(p, e).value;
      var top := TopOf(p, events, table, key, exactId);
      assert SameRow(p, top, e) && !Older(p, top, e);
    }
  }

  lemma DeliveryKeepsTop(p: Projection, events: set<Event>, table: Table, e: Event, exactId: bool)
    requires TopRows(p, events, table, exactId) && Compatible(p, events + {e})
    ensures TopRows(p, events + {e}, After(p, table, e, true), exactId)
  {
    var now := After(p, table, e, true);
    if Usable(p, e) {
      GuardAgrees(p, events, table, e, exactId);
    } else {
      UnusableChangesNothing(p, table, e, true);
    }
    forall key | key in now ensures RowIsTop(p, events + {e}, key, now[key], exactId) {
      if Usable(p, e) && key == KeyOf(p, e).value {
        DeliveredRowIsTop(p, events, table, e, exactId);
      } else {
        var top := TopOf(p, events, table, key, exactId);
        assert IsTop(p, events + {e}, top);
      }
    }
  }

  lemma DeliveredRowIsTop(p: Projection, events: set<Event>, table: Table, e: Event, exactId: bool)
    requires TopRows(p, events, table, exactId) && Compatible(p, events + {e}) && Usable(p, e)
    ensures KeyOf(p, e).value in After(p, table, e, true)
    ensures RowIsTop(p, events + {e}, KeyOf(p, e).value, After(p, table, e, true)[KeyOf(p, e).value], exactId)
  {
    var key := KeyOf(p, e).value;
    var row := After(p, table, e, true)[key];
    GuardAgrees(p, events, table, e, exactId);
    if key !in table {
      assert IsTop(p, events + {e}, e) && Reflects(p, row, e, exactId);
    } else {
      var top := TopOf(p, events, table, key, exactId);
      assert SameRow(p, top, e);
      if Older(p, top, e) {
        assert Covers(p, top, e);
        assert IsTop(p, events + {e}, e) && Reflects(p, row, e, exactId);
      } else {
        assert IsTop(p, events + {e}, top) && Reflects(p, row, top, exactId);
      }
    }
  }

  /** An event applies exactly when its row is new to the table, or its position is strictly
      newer than the row's and it is not the event the row already shows. */
  lemma AppliesExactly(p: Projection, table: Table, e: Event)
    requires Usable(p, e)
    ensures var key := KeyOf(p, e).value;
            After(p, table, e, true) != table
            <==> key !in table
                 || (PositionOf(p, e).value > table[key].position && (e.id == "" || e.id != table[key].eventId))
    ensures forall other :: other in table && Some(other) != KeyOf(p, e) ==>
              other in After(p, table, e, true) && After(p, table, e, true)[other] == table[other]
  {
    var key, now := KeyOf(p, e).value, After(p, table, e, true);
    if key in table && PositionOf(p, e).value > table[key].position && !SameDelivery(table[key], e) {
      assert now[key].position != table[key].position;
    } else if key !in table {
      assert key in now;
    }
  }

  // ----- which number orders the events ---------------------------------------------------

  /** What an event's payload says its place is: the declared field, or without one the
      timestamp. */
  predicate Says(p: Projection, e: Event, at: int) {
    if p.sequenceField != "" then
      p.sequenceField in e.payload && p.asInt(e.payload[p.sequenceField]) == Some(at)
    else
      e.timestamp == at
  }

  /** Two events about one row, by their payloads. */
  predicate AboutOneRow(p: Projection, e: Event, f: Event, key: string) {
    && p.sourceKey in e.payload && e.payload[p.sourceKey] != JNull && p.str(e.payload[p.sourceKey]) == key
    && p.sourceKey in f.payload && f.payload[p.sourceKey] != JNull && p.str(f.payload[p.sourceKey]) == key
  }

  /** In either order the row ends at the event whose declared field is larger, whatever the
      timestamps say; without a declared field, at the later timestamp. */
  lemma LargerWins(p: Projection, e: Event, f: Event, key: string, at: int, later: int)
    requires AboutOneRow(p, e, f, key) && Says(p, e, at) && Says(p, f, later) && at < later
    requires FitsColumns(p, p.apply(e)) && FitsColumns(p, p.apply(f)) && (e.id != "" ==> e.id != f.id)
    ensures Run(p, [e, f], true) == map[key := Row(later, f.id, p.columns + p.apply(e) + p.apply(f))]
    ensures Run(p, [f, e], true) == map[key := Row(later, f.id, p.columns + p.apply(f))]
  {
    RunOfPair(p, e, f, true);
    RunOfPair(p, f, e, true);
  }

  /** Two events in the same place: the one that came first stays. */
  lemma FirstStaysOnTies(p: Projection, e: Event, f: Event, key: string, at: int)
    requires AboutOneRow(p, e, f, key) && Says(p, e, at) && Says(p, f, at) && FitsColumns(p, p.apply(e))
    ensures Run(p, [e, f], true) == map[key := Row(at, e.id, p.columns + p.apply(e))]
  {
    RunOfPair(p, e, f, true);
  }

  predicate BadField(p: Projection, e: Event) {
    && p.sequenceField != ""
    && (p.sequenceField in e.payload ==> p.asInt(e.payload[p.sequenceField]).None?)
  }

  /** An event is refused exactly when its source key is missing or null, or its declared
      field is missing or no int, or it would write a column there is none of. */
  lemma RefusedExactly(p: Projection, table: Table, e: Event)
    ensures var r := Upsert(p, table, e, true);
            var keyed := p.sourceKey in e.payload && e.payload[p.sourceKey] != JNull;
            var placed := exists at :: Says(p, e, at);
            && (r == Err(NoSourceKey) <==> !keyed)
            && (r == Err(BadPosition) <==> keyed && !placed)
            && (!placed <==> BadField(p, e))
            && (r.Err? ==> After(p, table, e, true) == table)
            && (r == Err(UnknownField) ==> !FitsColumns(p, p.apply(e)))
            && (r.Err? ==> r.error in {NoSourceKey, BadPosition, UnknownField})
            && (r.Ok? && r.value.1 != Skipped ==> FitsColumns(p, p.apply(e)))
  {
    var at := if p.sequenceField == "" then e.timestamp
              else if p.sequenceField in e.payload && p.asInt(e.payload[p.sequenceField]).Some?
              then p.asInt(e.payload[p.sequenceField]).value else 0;
    assert p.sequenceField == "" || (p.sequenceField in e.payload && p.asInt(e.payload[p.sequenceField]).Some?)
        ==> Says(p, e, at);
  }

  /** What the runner is told about an event that can be applied: created where the row is
      new, updated where it is in a later place and no redelivery, skipped otherwise. */
  lemma OutcomesExactly(p: Projection, table: Table, e: Event, key: string, at: int)
    requires AboutOneRow(p, e, e, key) && Says(p, e, at) && FitsColumns(p, p.apply(e))
    ensures var r := Upsert(p, table, e, true);
            && r.Ok?
            && (r.value.1 == Created <==> key !in table)
            && (r.value.1 == Updated
                <==> key in table && at > table[key].position && (e.id == "" || e.id != table[key].eventId))
            && (r.value.1 == Skipped ==> r.value.0 == table)
            && (r.value.1 == Updated ==> r.value.0[key].fields == table[key].fields + p.apply(e))
  {
  }

  /** After a rebuild a row stands at its exported seq, or at 0: an event goes in exactly when
      it is in a later place. */
  lemma RebuiltRowsTakeLater(p: Projection, table: Table, exported: Fields, e: Event, at: int)
    requires GoodRow(p, exported) && AboutOneRow(p, e, e, p.str(exported[p.sourceKey]))
    requires Says(p, e, at) && FitsColumns(p, p.apply(e))
    ensures var key := p.str(exported[p.sourceKey]);
            var now := After(p, table[key := ObjectOf(p, exported).row], e, true);
            var exportedSeq := if "seq" in exported then p.asInt(exported["seq"]).value else 0;
            && ObjectOf(p, exported).key == key && key in now
            && now[key] == if at > exportedSeq then Row(at, e.id, p.columns + p.fromSnapshot(exported) + p.apply(e))
                           else Row(exportedSeq, "", p.columns + p.fromSnapshot(exported))
  {
  }

  // ----- deliveries only -----------------------------------------------------------

  function Run(p: Projection, es: seq<Event>, guarded: bool): Table {
    if es == [] then map[] else After(p, Run(p, es[..|es| - 1], guarded), es[|es| - 1], guarded)
  }

  ghost function SetOf(es: seq<Event>): set<Event> {
    set e | e in es
  }

  ghost predicate Over(es: seq<Event>, events: set<Event>) {
    SetOf(es) <= events
  }

  lemma {:induction false} RunEndsAtTop(p: Projection, es: seq<Event>)
    requires Compatible(p, SetOf(es))
    ensures TopRows(p, SetOf(es), Run(p, es, true), true)
  {
    if es != [] {
      var front, last := es[..|es| - 1], es[|es| - 1];
      assert es == front + [last];
      assert SetOf(es) == SetOf(front) + {last};
      RunEndsAtTop(p, front);
      DeliveryKeepsTop(p, SetOf(front), Run(p, front, true), last, true);
    }
  }

  lemma RunOfPair(p: Projection, e: Event, f: Event, guarded: bool)
    ensures Run(p, [e, f], guarded) == After(p, After(p, map[], e, guarded), f, guarded)
  {
    assert [e, f][..1] == [e] && [e][..0] == [];
    assert Run(p, [e], guarded) == After(p, map[], e, guarded);
  }

  /** Every order and duplication of every part of `events` ends at the newest event of
      each row, exactly when each newer event of a row writes over all that an older one
      wrote. */
  lemma ConvergesExactly(p: Projection, events: set<Event>)
    requires DistinctPositions(p, events) && Immutable(p, events)
    ensures (forall es :: Over(es, events) ==> TopRows(p, SetOf(es), Run(p, es, true), true)) <==> AllCover(p, events)
  {
    if AllCover(p, events) {
      forall es | Over(es, events) ensures TopRows(p, SetOf(es), Run(p, es, true), true) {
        RunEndsAtTop(p, es);
      }
    }
    if forall es :: Over(es, events) ==> TopRows(p, SetOf(es), Run(p, es, true), true) {
      forall e, f | e in events && f in events && SameRow(p, e, f) && Older(p, e, f) ensures Covers(p, e, f) {
        PairShowsCover(p, events, e, f);
      }
    }
  }

  lemma PairShowsCover(p: Projection, events: set<Event>, e: Event, f: Event)
    requires e in events && f in events && SameRow(p, e, f) && Older(p, e, f) && Immutable(p, events)
    requires TopRows(p, SetOf([e, f]), Run(p, [e, f], true), true)
    ensures Covers(p, e, f)
  {
    var key, table := KeyOf(p, e).value, Run(p, [e, f], true);
    RunOfPair(p, e, f, true);
    assert !SameDelivery(RowOf(p, e), f);
    assert table[key].fields == p.columns + p.apply(e) + p.apply(f);
    assert RowIsTop(p, SetOf([e, f]), key, table[key], true);
    var top :| IsTop(p, SetOf([e, f]), top) && KeyOf(p, top) == Some(key) && Reflects(p, table[key], top, true);
    assert f in [e, f];
    assert top == f;
  }

  /** Two delivery sequences over the same events leave the same table. */
  lemma OrderDoesNotMatter(p: Projection, es: seq<Event>, fs: seq<Event>)
    requires SetOf(es) == SetOf(fs) && Compatible(p, SetOf(es))
    ensures Run(p, es, true) == Run(p, fs, true)
  {
    RunEndsAtTop(p, es);
    RunEndsAtTop(p, fs);
    TopRowsAreUnique(p, SetOf(es), Run(p, es, true), Run(p, fs, true));
  }

  lemma TopRowsAreUnique(p: Projection, events: set<Event>, a: Table, b: Table)
    requires DistinctPositions(p, events) && TopRows(p, events, a, true) && TopRows(p, events, b, true)
    ensures a == b
  {
    forall key | key in a ensures key in b && a[key] == b[key] {
      TopRowInBoth(p, events, a, b, key);
    }
    forall key | key in b ensures key in a {
      TopRowInBoth(p, events, b, a, key);
    }
  }

  lemma OneTop(p: Projection, events: set<Event>, e: Event, f: Event)
    requires DistinctPositions(p, events) && IsTop(p, events, e) && IsTop(p, events, f)
    requires KeyOf(p, e) == KeyOf(p, f)
    ensures e == f
  {
    assert SameRow(p, e, f) && SameRow(p, f, e);
  }

  lemma TopRowInBoth(p: Projection, events: set<Event>, a: Table, b: Table, key: string)
    requires DistinctPositions(p, events) && TopRows(p, events, a, true) && TopRows(p, events, b, true)
    requires key in a
    ensures key in b && a[key] == b[key]
  {
    var e := TopOf(p, events, a, key, true);
    var f := TopOf(p, events, b, key, true);
    OneTop(p, events, e, f);
  }

  // ----- the exact-redelivery guard ------------------------------------------------

  ghost predicate ComesFrom(p: Projection, es: seq<Event>, key: string, row: Row) {
    exists e :: e in es && Usable(p, e) && KeyOf(p, e) == Some(key) && PositionOf(p, e) == Some(row.position) &&
        e.id == row.eventId
  }

  lemma {:induction false} RowsComeFromEvents(p: Projection, es: seq<Event>, guarded: bool, key: string)
    requires key in Run(p, es, guarded)
    ensures ComesFrom(p, es, key, Run(p, es, guarded)[key])
    decreases |es|
  {
    if es != [] {
      var front, last := es[..|es| - 1], es[|es| - 1];
      assert es == front + [last];
      var before, row := Run(p, front, guarded), Run(p, es, guarded)[key];
      if key in before && row == before[key] {
        RowsComeFromEvents(p, front, guarded, key);
        var e :| e in front && Usable(p, e) && KeyOf(p, e) == Some(key) && PositionOf(p, e) == Some(row.position) &&
            e.id == row.eventId;
        assert e in es;
      } else {
        ChangedRowIsDelivered(p, before, last, guarded, key);
      }
    }
  }

  lemma ChangedRowIsDelivered(p: Projection, table: Table, e: Event, guarded: bool, key: string)
    requires key in After(p, table, e, guarded)
    requires key !in table || After(p, table, e, guarded)[key] != table[key]
    ensures Usable(p, e) && KeyOf(p, e) == Some(key)
    ensures var row := After(p, table, e, guarded)[key]; row.position == PositionOf(p, e).value && row.eventId == e.id
  {
    if !Usable(p, e) {
      UnusableChangesNothing(p, table, e, guarded);
    }
  }

  lemma {:induction false} GuardChangesNoRun(p: Projection, es: seq<Event>)
    requires Immutable(p, SetOf(es))
    ensures Run(p, es, true) == Run(p, es, false)
  {
    if es != [] {
      var front, last := es[..|es| - 1], es[|es| - 1];
      assert es == front + [last];
      assert forall e :: e in front ==> e in es;
      GuardChangesNoRun(p, front);
      var table := Run(p, front, true);
      if Usable(p, last) && KeyOf(p, last).value in table && SameDelivery(table[KeyOf(p, last).value], last) {
        var key := KeyOf(p, last).value;
        RowsComeFromEvents(p, front, true, key);
        var e :| e in front && Usable(p, e) && KeyOf(p, e) == Some(key) &&
            PositionOf(p, e) == Some(table[key].position) && e.id == table[key].eventId;
        assert e in SetOf(es) && last in SetOf(es) && SameRow(p, e, last);
      }
    }
  }

  /** Dropping the event-id test would change no run over `events`, exactly when no id is
      reused at a later position of the same row. */
  lemma GuardIsRedundantExactly(p: Projection, events: set<Event>)
    ensures (forall es :: Over(es, events) ==> Run(p, es, true) == Run(p, es, false)) <==> Immutable(p, events)
  {
    if Immutable(p, events) {
      forall es | Over(es, events) ensures Run(p, es, true) == Run(p, es, false) {
        GuardChangesNoRun(p, es);
      }
    }
    if forall es :: Over(es, events) ==> Run(p, es, true) == Run(p, es, false) {
      forall e, f | e in events && f in events && SameRow(p, e, f) && e.id != "" && e.id == f.id
        ensures !Older(p, e, f)
      {
        assert Over([e, f], events);
        ReusedIdShows(p, e, f);
      }
    }
  }

  /** The one run that tells: an id that comes again at a later position. */
  lemma ReusedIdShows(p: Projection, e: Event, f: Event)
    requires SameRow(p, e, f) && e.id != "" && e.id == f.id
    ensures Older(p, e, f) ==> Run(p, [e, f], true) != Run(p, [e, f], false)
  {
    var key := KeyOf(p, e).value;
    RunOfPair(p, e, f, true);
    RunOfPair(p, e, f, false);
    assert Run(p, [e, f], true)[key].position == PositionOf(p, e).value;
    assert Older(p, e, f) ==> Run(p, [e, f], false)[key].position == PositionOf(p, f).value;
  }

  // ----- the owner, deliveries and rebuilds together ---------------------------------

  /** What the owner has published, what this side has taken in (by delivery or by
      snapshot), and the table. */
  datatype World = World(published: set<Event>, heard: set<Event>, table: Table)

  /** A snapshot: for each exported key the update whose outcome the owner exported. */
  type Snapshot = map<string, Event>

  datatype Step = Publish(e: Event) | Deliver(e: Event) | Rebuild(snapshot: Snapshot) | FailedRebuild

  ghost predicate Exportable(p: Projection, published: set<Event>, snapshot: Snapshot) {
    forall key :: key in snapshot ==>
      snapshot[key] in published && Usable(p, snapshot[key]) && KeyOf(p, snapshot[key]) == Some(key)
  }

  /** No taken-in update is newer than the exported one of its row. */
  ghost predicate AsNewAs(p: Projection, snapshot: Snapshot, heard: set<Event>) {
    forall e :: e in heard && Usable(p, e) ==>
      KeyOf(p, e).value in snapshot && SameRow(p, snapshot[KeyOf(p, e).value], e) &&
          !Older(p, snapshot[KeyOf(p, e).value], e)
  }

  function TableOf(p: Projection, snapshot: Snapshot): Table
    requires forall key :: key in snapshot ==> Usable(p, snapshot[key])
  {
    map key | key in snapshot :: RowOf(p, snapshot[key]).(eventId := "")
  }

  /** The exported row states the outcome of update `e`. */
  predicate Exports(p: Projection, row: Fields, e: Event) {
    && GoodRow(p, row) && Usable(p, e)
    && Some(p.str(row[p.sourceKey])) == KeyOf(p, e)
    && SnapshotSeq(p, row) == PositionOf(p, e)
    && p.columns + p.fromSnapshot(row) == p.columns + p.apply(e)
  }

  /** Where the object with this key stands. */
  ghost function IndexOf(objs: seq<Object>, key: string): (i: nat)
    requires DistinctKeys(objs) && key in KeySet(objs)
    ensures i < |objs| && objs[i].key == key
  {
    var i :| 0 <= i < |objs| && objs[i].key == key;
    i
  }

  ghost function SnapshotOf(objs: seq<Object>, es: seq<Event>): Snapshot
    requires DistinctKeys(objs) && |es| == |objs|
  {
    map key | key in KeySet(objs) :: es[IndexOf(objs, key)]
  }

  ghost predicate ExportsAll(p: Projection, rows: seq<Fields>, es: seq<Event>) {
    |es| == |rows| && AllGood(p, rows) && forall i :: 0 <= i < |rows| ==> Exports(p, rows[i], es[i])
  }

  ghost predicate Stated(p: Projection, events: set<Event>, table: Table, key: string, e: Event) {
    && e in events && Usable(p, e) && KeyOf(p, e) == Some(key)
    && key in table && table[key] == RowOf(p, e).(eventId := "")
  }

  lemma ExportedRow(p: Projection, rows: seq<Fields>, es: seq<Event>, table: Table, key: string)
    requires ExportsAll(p, rows, es) && Holds(table, ObjectsOf(p, rows)) && key in KeySet(ObjectsOf(p, rows))
    ensures Stated(p, SetOf(es), table, key, SnapshotOf(ObjectsOf(p, rows), es)[key])
  {
    var i := IndexOf(ObjectsOf(p, rows), key);
    assert Exports(p, rows[i], es[i]) && ObjectsOf(p, rows)[i] == ObjectOf(p, rows[i]);
  }

  lemma StatedTable(p: Projection, events: set<Event>, table: Table, snapshot: Snapshot)
    requires snapshot.Keys == table.Keys
    requires forall key :: key in snapshot ==> Stated(p, events, table, key, snapshot[key])
    ensures Exportable(p, events, snapshot) && table == TableOf(p, snapshot)
  {
    var made := TableOf(p, snapshot);
    assert forall key :: key in table ==> key in snapshot && table[key] == made[key];
  }

  /** What rebuild leaves in the table is the snapshot the owner exported. */
  lemma RebuiltTableIsSnapshot(p: Projection, rows: seq<Fields>, es: seq<Event>, table: Table)
    requires ExportsAll(p, rows, es) && Holds(table, ObjectsOf(p, rows))
    ensures var snapshot := SnapshotOf(ObjectsOf(p, rows), es);
            Exportable(p, SetOf(es), snapshot) && table == TableOf(p, snapshot)
  {
    var objs := ObjectsOf(p, rows);
    var snapshot := SnapshotOf(objs, es);
    KeysOf(table, objs);
    forall key | key in snapshot ensures Stated(p, SetOf(es), table, key, snapshot[key]) {
      ExportedRow(p, rows, es, table, key);
    }
    StatedTable(p, SetOf(es), table, snapshot);
  }

  ghost predicate Allowed(p: Projection, w: World, step: Step) {
    match step
    case Publish(e) => Usable(p, e) && Compatible(p, w.published + {e})
    case Deliver(e) => e in w.published
    case Rebuild(snapshot) => Exportable(p, w.published, snapshot) && AsNewAs(p, snapshot, w.heard)
    case FailedRebuild => true
  }

  ghost function Do(p: Projection, w: World, step: Step): World
    requires step.Rebuild? ==> Exportable(p, w.published, step.snapshot)
  {
    match step
    case Publish(e) => w.(published := w.published + {e})
    case Deliver(e) => w.(heard := w.heard + {e}, table := After(p, w.table, e, true))
    case Rebuild(snapshot) => w.(heard := w.heard + snapshot.Values, table := TableOf(p, snapshot))
    case FailedRebuild => w
  }

  /** Each row is the owner's at that row's position, and no taken-in update is lost. */
  ghost predicate Agrees(p: Projection, w: World) {
    && w.heard <= w.published
    && Compatible(p, w.published)
    && TopRows(p, w.heard, w.table, false)
  }

  lemma FewerAreCompatible(p: Projection, some: set<Event>, events: set<Event>)
    requires some <= events && Compatible(p, events)
    ensures Compatible(p, some)
  {
  }

  lemma RebuildIsTop(p: Projection, published: set<Event>, heard: set<Event>, snapshot: Snapshot)
    requires Exportable(p, published, snapshot) && AsNewAs(p, snapshot, heard)
    ensures TopRows(p, heard + snapshot.Values, TableOf(p, snapshot), false)
  {
    var now := heard + snapshot.Values;
    forall key | key in snapshot ensures RowIsTop(p, now, key, TableOf(p, snapshot)[key], false) {
      var top := snapshot[key];
      assert top in snapshot.Values;
      forall f | f in now && SameRow(p, top, f) ensures !Older(p, top, f) {
        if f in snapshot.Values {
          var k :| k in snapshot && snapshot[k] == f;
        }
      }
      assert IsTop(p, now, top) && Reflects(p, TableOf(p, snapshot)[key], top, false);
    }
  }

  /** Every step of every interleaving keeps table and owner in agreement. */
  lemma StepKeepsAgreement(p: Projection, w: World, step: Step)
    requires Agrees(p, w) && Allowed(p, w, step)
    ensures Agrees(p, Do(p, w, step))
  {
    match step {
      case Publish(e) =>
      case Deliver(e) =>
        FewerAreCompatible(p, w.heard + {e}, w.published);
        DeliveryKeepsTop(p, w.heard, w.table, e, false);
      case Rebuild(snapshot) =>
        RebuildIsTop(p, w.published, w.heard, snapshot);
      case FailedRebuild =>
    }
  }

  ghost predicate NeverBack(a: Table, b: Table) {
    forall key :: key in a ==> key in b && a[key].position <= b[key].position
  }

  lemma DeliveryNeverGoesBack(p: Projection, table: Table, e: Event)
    ensures NeverBack(table, After(p, table, e, true))
  {
  }

  /** A rebuild takes no row away and no position back, exactly when its snapshot is at
      least as new as all that was taken in before. */
  lemma RebuildNeverGoesBackExactly(p: Projection, w: World, snapshot: Snapshot)
    requires Agrees(p, w) && Exportable(p, w.published, snapshot)
    ensures NeverBack(w.table, TableOf(p, snapshot)) <==> AsNewAs(p, snapshot, w.heard)
  {
    var rebuilt := TableOf(p, snapshot);
    if AsNewAs(p, snapshot, w.heard) {
      forall key | key in w.table ensures key in rebuilt && w.table[key].position <= rebuilt[key].position {
        assert RowIsTop(p, w.heard, key, w.table[key], false);
      }
    }
    if NeverBack(w.table, rebuilt) {
      forall e | e in w.heard && Usable(p, e)
        ensures KeyOf(p, e).value in snapshot && SameRow(p, snapshot[KeyOf(p, e).value], e) &&
            !Older(p, snapshot[KeyOf(p, e).value], e)
      {
        var key := KeyOf(p, e).value;
        var top := TopOf(p, w.heard, w.table, key, false);
        assert SameRow(p, top, e) && !Older(p, top, e);
      }
    }
  }

  lemma StepNeverGoesBack(p: Projection, w: World, step: Step)
    requires Agrees(p, w) && Allowed(p, w, step)
    ensures NeverBack(w.table, Do(p, w, step).table)
  {
    match step {
      case Publish(e) =>
      case Deliver(e) => DeliveryNeverGoesBack(p, w.table, e);
      case Rebuild(snapshot) => RebuildNeverGoesBackExactly(p, w, snapshot);
      case FailedRebuild =>
    }
  }

  /** A run of allowed steps. */
  ghost predicate Runs(p: Projection, w: World, steps: seq<Step>, end: World)
    decreases |steps|
  {
    if steps == [] then end == w
    else Allowed(p, w, steps[0]) && Runs(p, Do(p, w, steps[0]), steps[1..], end)
  }

  /** Over a whole run: agreement, and no position ever goes down. */
  lemma {:induction false} RunKeepsAgreement(p: Projection, w: World, steps: seq<Step>, end: World)
    requires Agrees(p, w) && Runs(p, w, steps, end)
    ensures Agrees(p, end) && NeverBack(w.table, end.table)
    decreases |steps|
  {
    if steps != [] {
      var next := Do(p, w, steps[0]);
      StepKeepsAgreement(p, w, steps[0]);
      StepNeverGoesBack(p, w, steps[0]);
      RunKeepsAgreement(p, next, steps[1..], end);
      assert forall key :: key in w.table ==> key in next.table;
    }
  }

  /** The owner's current row for every key it ever published. */
  ghost predicate IsCurrent(p: Projection, w: World) {
    TopRows(p, w.published, w.table, false)
  }

  /** From an empty start: the table is the owner's current state exactly when every
      row's newest update has been taken in. */
  lemma CaughtUpExactly(p: Projection, steps: seq<Step>, end: World)
    requires Runs(p, World({}, {}, map[]), steps, end)
    ensures IsCurrent(p, end) <==> forall e :: IsTop(p, end.published, e) ==> e in end.heard
  {
    var start := World({}, {}, map[]);
    assert Agrees(p, start);
    RunKeepsAgreement(p, start, steps, end);
    if forall e :: IsTop(p, end.published, e) ==> e in end.heard {
      CaughtUp(p, end);
    }
    if IsCurrent(p, end) {
      forall e | IsTop(p, end.published, e) ensures e in end.heard {
        CurrentIsHeard(p, end, e);
      }
    }
  }

  lemma CurrentIsHeard(p: Projection, w: World, e: Event)
    requires Agrees(p, w) && IsCurrent(p, w) && IsTop(p, w.published, e)
    ensures e in w.heard
  {
    var key := KeyOf(p, e).value;
    var top := TopOf(p, w.heard, w.table, key, false);
    var best := TopOf(p, w.published, w.table, key, false);
    assert SameRow(p, top, best) && SameRow(p, best, e) && SameRow(p, e, best);
    assert top == best == e;
  }

  lemma {:induction false} TopExists(p: Projection, events: set<Event>, e: Event) returns (top: Event)
    requires e in events && Usable(p, e)
    ensures IsTop(p, events, top) && SameRow(p, e, top) && !Older(p, top, e)
    decreases |events|
  {
    if f :| f in events && SameRow(p, e, f) && Older(p, e, f) {
      var rest := events - {e};
      assert |rest| < |events|;
      top := TopExists(p, rest, f);
      assert IsTop(p, events, top);
    } else {
      top := e;
    }
  }

  lemma CaughtUp(p: Projection, w: World)
    requires Agrees(p, w) && forall e :: IsTop(p, w.published, e) ==> e in w.heard
    ensures IsCurrent(p, w)
  {
    forall e | e in w.published && Usable(p, e) ensures KeyOf(p, e).value in w.table {
      var top := TopExists(p, w.published, e);
    }
    forall key | key in w.table ensures RowIsTop(p, w.published, key, w.table[key], false) {
      var mine := TopOf(p, w.heard, w.table, key, false);
      var top := TopExists(p, w.published, mine);
      assert SameRow(p, mine, top) && !Older(p, mine, top);
      assert top == mine;
    }
  }
}
