/** Event-carried read-models, comm/projections.py: the idempotent upsert and the
    paged rebuild of one projection table. */
module Projections {
  import opened Common

  type Fields = map<string, Json>

  datatype Event = Event(id: string, timestamp: int, payload: Fields)

  /** One row of the table: the bookkeeping columns and the model's own. */
  datatype Row = Row(position: int, eventId: string, fields: Fields)

  type Table = map<string, Row>

  /** A declaration.  `columns` are the model's own columns with their defaults,
      `apply` and `fromSnapshot` the mapping hooks, `str` and `asInt` Python's
      conversions (None where int() raises). */
  datatype Projection = Projection(
    sourceKey: string,
    sequenceField: string,
    rebuildable: bool,
    columns: Fields,
    apply: Event -> Fields,
    fromSnapshot: Fields -> Fields,
    str: Json -> string,
    asInt: Json -> Option<int>)

  datatype Outcome = Created | Updated | Skipped

  datatype Error = NoSourceKey | BadPosition | UnknownField | NotRebuildable | ExportRaised | BadRow | DuplicateKey

  // ----- one event -----------------------------------------------------------------

  function KeyOf(p: Projection, e: Event): Option<string> {
    if p.sourceKey in e.payload && e.payload[p.sourceKey] != JNull
    then Some(p.str(e.payload[p.sourceKey])) else None
  }

  function PositionOf(p: Projection, e: Event): Option<int> {
    if p.sequenceField == "" then Some(e.timestamp)
    else if p.sequenceField in e.payload then p.asInt(e.payload[p.sequenceField])
    else None
  }

  predicate FitsColumns(p: Projection, fields: Fields) {
    fields.Keys <= p.columns.Keys
  }

  /** An event the projection can apply to any table. */
  predicate Usable(p: Projection, e: Event) {
    KeyOf(p, e).Some? && PositionOf(p, e).Some? && FitsColumns(p, p.apply(e))
  }

  /** The row an event makes where there was none. */
  function RowOf(p: Projection, e: Event): Row
    requires Usable(p, e)
  {
    Row(PositionOf(p, e).value, e.id, p.columns + p.apply(e))
  }

  predicate SameDelivery(row: Row, e: Event) {
    e.id != "" && e.id == row.eventId
  }

  /** What one event does to the table; `guarded` says whether the exact-redelivery
      test on the event id is in place. */
  function Upsert(p: Projection, table: Table, e: Event, guarded: bool): Result<(Table, Outcome), Error> {
    var key, pos, fields := KeyOf(p, e), PositionOf(p, e), p.apply(e);
    if key.None? then Err(NoSourceKey)
    else if pos.None? then Err(BadPosition)
    else if key.value !in table then
      if FitsColumns(p, fields) then Ok((table[key.value := Row(pos.value, e.id, p.columns + fields)], Created))
      else Err(UnknownField)
    else
      var row := table[key.value];
      if (guarded && SameDelivery(row, e)) || pos.value <= row.position then Ok((table, Skipped))
      else if FitsColumns(p, fields) then Ok((table[key.value := Row(pos.value, e.id, row.fields + fields)], Updated))
      else Err(UnknownField)
  }

  /** The table after a delivery, whatever came of it. */
  function After(p: Projection, table: Table, e: Event, guarded: bool): Table {
    var r := Upsert(p, table, e, guarded);
    if r.Ok? then r.value.0 else table
  }

  // ----- the export ----------------------------------------------------------------

  /** An answer of the owner's export function. */
  datatype Response =
    | Page(rows: seq<Fields>, total: Option<int>, cursor: Option<string>)
    | Plain(rows: seq<Fields>)
    | Raised

  type Exporter = (Option<string>, nat) -> Response

  function NextCursor(r: Response): Option<string> {
    if r.Page? && r.cursor.Some? && r.cursor.value != "" then r.cursor else None
  }

  function TotalOf(r: Response): Option<int> {
    if r.Page? then r.total else None
  }

  /** Following the cursors ends after n calls, or an earlier one raises. */
  ghost predicate Ends(exporter: Exporter, cursor: Option<string>, limit: nat, n: nat)
    decreases n
  {
    var next := NextCursor(exporter(cursor, limit));
    n > 0 && (next.Some? ==> Ends(exporter, next, limit, n - 1))
  }

  /** The answers met on the way, up to the first that raises. */
  ghost function Pages(exporter: Exporter, cursor: Option<string>, limit: nat, n: nat): (pages: seq<Response>)
    requires Ends(exporter, cursor, limit, n)
    ensures |pages| >= 1
    decreases n
  {
    var r := exporter(cursor, limit);
    if NextCursor(r).None? then [r] else [r] + Pages(exporter, NextCursor(r), limit, n - 1)
  }

  ghost predicate Answered(pages: seq<Response>) {
    forall i :: 0 <= i < |pages| ==> !pages[i].Raised?
  }

  /** The exported rows, page after page. */
  ghost function RowsOf(pages: seq<Response>): seq<Fields>
    requires Answered(pages)
  {
    if pages == [] then [] else RowsOf(pages[..|pages| - 1]) + pages[|pages| - 1].rows
  }

  function SnapshotSeq(p: Projection, row: Fields): Option<int> {
    if "seq" in row then p.asInt(row["seq"]) else Some(0)
  }

  predicate GoodRow(p: Projection, row: Fields) {
    p.sourceKey in row && SnapshotSeq(p, row).Some? && FitsColumns(p, p.fromSnapshot(row))
  }

  /** A row to be inserted, with its key. */
  datatype Object = Object(key: string, row: Row)

  function ObjectOf(p: Projection, row: Fields): Object
    requires GoodRow(p, row)
  {
    Object(p.str(row[p.sourceKey]), Row(SnapshotSeq(p, row).value, "", p.columns + p.fromSnapshot(row)))
  }

  ghost predicate AllGood(p: Projection, rows: seq<Fields>) {
    forall i :: 0 <= i < |rows| ==> GoodRow(p, rows[i])
  }

  function ObjectsOf(p: Projection, rows: seq<Fields>): (objs: seq<Object>)
    requires AllGood(p, rows)
    ensures |objs| == |rows| && forall i :: 0 <= i < |rows| ==> objs[i] == ObjectOf(p, rows[i])
  {
    seq(|rows|, i requires 0 <= i < |rows| && AllGood(p, rows) => ObjectOf(p, rows[i]))
  }

  ghost predicate DistinctKeys(objs: seq<Object>) {
    forall i, j :: 0 <= i < j < |objs| ==> objs[i].key != objs[j].key
  }

  /** `table` holds exactly these rows, each once, and nothing else. */
  ghost predicate Holds(table: Table, objs: seq<Object>) {
    && DistinctKeys(objs)
    && |table| == |objs|
    && (forall i :: 0 <= i < |objs| ==> objs[i].key in table && table[objs[i].key] == objs[i].row)
  }

  /** What a rebuild needs of the rows it is given. */
  ghost predicate Storable(p: Projection, rows: seq<Fields>) {
    AllGood(p, rows) && DistinctKeys(ObjectsOf(p, rows))
  }

  datatype RebuildResult = RebuildResult(rows: nat, batches: nat)

  datatype DriftReport = DriftReport(local: nat, source: nat)
  {
    predicate InSync() { local == source }
  }

  /** The export can be stored: no call raises, every row is well formed, no key twice. */
  ghost predicate Rebuilds(p: Projection, pages: seq<Response>) {
    p.rebuildable && Answered(pages) && Storable(p, RowsOf(pages))
  }

  /** The page can be added to what was stored before it. */
  ghost predicate Fits(p: Projection, seen: seq<Response>, page: Response)
    requires Rebuilds(p, seen) && !page.Raised?
  {
    AllGood(p, page.rows) && DistinctKeys(ObjectsOf(p, RowsOf(seen)) + ObjectsOf(p, page.rows))
  }

  /** on_progress was called once a page with the rows written so far. */
  ghost predicate Reported(pages: seq<Response>, progress: seq<(nat, Option<int>)>)
    requires Answered(pages)
  {
    && |progress| == |pages|
    && (forall i :: 0 <= i < |pages| ==> progress[i] == (|RowsOf(pages[..i + 1])|, TotalOf(pages[i])))
  }

  /** The table holds each exported row exactly once, and what was said about it is true. */
  ghost predicate IsRebuilt(p: Projection, table: Table, pages: seq<Response>, r: RebuildResult,
                            progress: seq<(nat, Option<int>)>)
    requires Rebuilds(p, pages)
  {
    && Holds(table, ObjectsOf(p, RowsOf(pages)))
    && r.rows == |RowsOf(pages)|
    && r.batches == |pages|
    && Reported(pages, progress)
  }

  // ----- the table -----------------------------------------------------------------

  class ProjectionTable {
    const p: Projection
    var rows: Table

    constructor (p: Projection)
      ensures this.p == p && rows == map[]
    {
      this.p := p;
      rows := map[];
    }

    /** apply_event: one upsert, all or nothing. */
    method ApplyEvent(e: Event) returns (r: Result<Outcome, Error>)
      modifies this
      ensures rows == After(p, old(rows), e, true)
      ensures match Upsert(p, old(rows), e, true)
              case Ok(v) => r == Ok(v.1)
              case Err(error) => r == Err(error)
    {
      var key := KeyOf(p, e);
      if key.None? {
        return Err(NoSourceKey);
      }
      var pos := PositionOf(p, e);
      if pos.None? {
        return Err(BadPosition);
      }
      var fields := p.apply(e);
      if key.value !in rows {
        if !FitsColumns(p, fields) {
          return Err(UnknownField);
        }
        rows := rows[key.value := Row(pos.value, e.id, p.columns + fields)];
        return Ok(Created);
      }
      var row := rows[key.value];
      if e.id != "" && e.id == row.eventId {
        return Ok(Skipped);
      }
      if pos.value <= row.position {
        return Ok(Skipped);
      }
      if !FitsColumns(p, fields) {
        return Err(UnknownField);
      }
      rows := rows[key.value := Row(pos.value, e.id, row.fields + fields)];
      return Ok(Updated);
    }

    /** The objects of one page, or None at the first malformed row. */
    method BuildObjects(page: seq<Fields>) returns (objs: Option<seq<Object>>)
      ensures objs.Some? <==> AllGood(p, page)
      ensures objs.Some? ==> objs.value == ObjectsOf(p, page)
    {
      var built: seq<Object> := [];
      for i := 0 to |page|
        invariant AllGood(p, page[..i]) && built == ObjectsOf(p, page[..i])
      {
        if !GoodRow(p, page[i]) {
          return None;
        }
        built := built + [ObjectOf(p, page[i])];
      }
      assert page[..|page|] == page;
      return Some(built);
    }

    /** bulk_create: the unique key refuses a second row of the same key. */
    method BulkCreate(objs: seq<Object>, ghost before: seq<Object>) returns (ok: bool)
      requires Holds(rows, before)
      modifies this
      ensures ok <==> DistinctKeys(before + objs)
      ensures ok ==> Holds(rows, before + objs)
    {
      assert before + objs[..0] == before;
      for i := 0 to |objs|
        invariant Holds(rows, before + objs[..i])
      {
        ghost var now := before + objs[..i];
        if objs[i].key in rows {
          var j := KeyComesFromObject(rows, now, objs[i].key);
          assert (before + objs)[j] == now[j] && (before + objs)[|now|] == objs[i];
          return false;
        }
        KeysOf(rows, now);
        rows := rows[objs[i].key := objs[i].row];
        assert before + objs[..i + 1] == now + [objs[i]];
      }
      assert before + objs[..|objs|] == before + objs;
      return true;
    }

    /** One page of rebuild. */
    method StorePage(page: Response, ghost seen: seq<Response>, rowsWritten: nat, batchesDone: nat,
        reported: seq<(nat, Option<int>)>)
      returns (error: Option<Error>, written: nat, batches: nat, progress: seq<(nat, Option<int>)>)
      requires !page.Raised? && Rebuilds(p, seen)
      requires IsRebuilt(p, rows, seen, RebuildResult(rowsWritten, batchesDone), reported)
      modifies this
      ensures error.None? ==> Rebuilds(p, seen + [page])
      ensures error.None? ==> IsRebuilt(p, rows, seen + [page], RebuildResult(written, batches), progress)
      ensures error.Some? ==> !Fits(p, seen, page)
    {
      written, batches, progress := rowsWritten, batchesDone, reported;
      var objs := BuildObjects(page.rows);
      if objs.None? {
        return Some(BadRow), written, batches, progress;
      }
      var stored := BulkCreate(objs.value, ObjectsOf(p, RowsOf(seen)));
      if !stored {
        return Some(DuplicateKey), written, batches, progress;
      }
      written, batches := written + |objs.value|, batches + 1;
      PageIsStored(p, rows, seen, page, RebuildResult(written, batches), progress);
      progress := progress + [(written, TotalOf(page))];
      return None, written, batches, progress;
    }

    /** rebuild: clear and repopulate from the export in one transaction.  `progress`
        are the calls of on_progress. */
    method Rebuild(exporter: Exporter, batchSize: nat, ghost n: nat)
      returns (r: Result<RebuildResult, Error>, progress: seq<(nat, Option<int>)>)
      requires Ends(exporter, None, batchSize, n)
      modifies this
      ensures r.Ok? <==> Rebuilds(p, Pages(exporter, None, batchSize, n))
      ensures r.Ok? ==> IsRebuilt(p, rows, Pages(exporter, None, batchSize, n), r.value, progress)
      ensures r.Ok? ==> DriftReport(|rows|, |RowsOf(Pages(exporter, None, batchSize, n))|).InSync()
      ensures r.Err? ==> rows == old(rows)
    {
      progress := [];
      if !p.rebuildable {
        return Err(NotRebuildable), progress;
      }
      var saved := rows;
      rows := map[];
      var written: nat, batches: nat := 0, 0;
      var cursor, more := None, true;
      ghost var all := Pages(exporter, None, batchSize, n);
      ghost var seen: seq<Response>, left := [], n;
      while more
        invariant Rebuilds(p, seen)
        invariant IsRebuilt(p, rows, seen, RebuildResult(written, batches), progress)
        invariant Walked(exporter, batchSize, all, seen, cursor, left, more)
        decreases left
      {
        var resp := exporter(cursor, batchSize);
        WalkStep(exporter, batchSize, all, seen, cursor, left, resp);
        WalkPrefix(exporter, batchSize, all, seen, cursor, left);
        if resp.Raised? {
          RaisedSpoils(all, |seen|);
          rows := saved;
          return Err(ExportRaised), progress;
        }
        var error;
        error, written, batches, progress := StorePage(resp, seen, written, batches, progress);
        if error.Some? {
          PageSpoilsExport(p, all, seen, resp);
          rows := saved;
          return Err(error.value), progress;
        }
        seen := seen + [resp];
        cursor := NextCursor(resp);
        more := cursor.Some?;
        left := left - 1;
      }
      assert IsRebuilt(p, rows, all, RebuildResult(written, batches), progress);
      return Ok(RebuildResult(written, batches)), progress;
    }

    /** drift_check: the two counts, nothing written. */
    method DriftCheck(exporter: Exporter, batchSize: nat, ghost n: nat) returns (r: Result<DriftReport, Error>)
      requires Ends(exporter, None, batchSize, n)
      ensures r.Ok? <==> p.rebuildable && Answered(Pages(exporter, None, batchSize, n))
      ensures r.Ok? ==> r.value == DriftReport(|rows|, |RowsOf(Pages(exporter, None, batchSize, n))|)
    {
      if !p.rebuildable {
        return Err(NotRebuildable);
      }
      var local := |rows|;
      var source := CountSnapshot(exporter, batchSize, n);
      if source.None? {
        return Err(ExportRaised);
      }
      return Ok(DriftReport(local, source.value));
    }
  }

  /** The sum over the pages of _iter_snapshot, or None when a call raises. */
  method CountSnapshot(exporter: Exporter, batchSize: nat, ghost n: nat) returns (source: Option<nat>)
    requires Ends(exporter, None, batchSize, n)
    ensures source.Some? <==> Answered(Pages(exporter, None, batchSize, n))
    ensures source.Some? ==> source.value == |RowsOf(Pages(exporter, None, batchSize, n))|
  {
    var count: nat := 0;
    var cursor, more := None, true;
    ghost var all := Pages(exporter, None, batchSize, n);
    ghost var seen: seq<Response>, left := [], n;
    while more
      invariant CountedTo(seen, count)
      invariant Walked(exporter, batchSize, all, seen, cursor, left, more)
      decreases left
    {
      var resp := exporter(cursor, batchSize);
      WalkStep(exporter, batchSize, all, seen, cursor, left, resp);
      if resp.Raised? {
        RaisedSpoils(all, |seen|);
        return None;
      }
      CountGrows(seen, resp, count);
      count := count + |resp.rows|;
      seen := seen + [resp];
      cursor := NextCursor(resp);
      more := cursor.Some?;
      left := left - 1;
    }
    assert CountedTo(all, count);
    return Some(count);
  }

  ghost function KeySet(objs: seq<Object>): set<string> {
    set i | 0 <= i < |objs| :: objs[i].key
  }

  lemma {:induction false} KeysCounted(objs: seq<Object>)
    requires DistinctKeys(objs)
    ensures |KeySet(objs)| == |objs|
  {
    if objs != [] {
      var n := |objs| - 1;
      var rest := objs[..n];
      KeysCounted(rest);
      assert forall i :: 0 <= i < n ==> rest[i] == objs[i];
      assert KeySet(objs) == KeySet(rest) + {objs[n].key};
    }
  }

  lemma SubsetOfSameSize<T>(a: set<T>, b: set<T>)
    requires a <= b && |a| == |b|
    ensures a == b
  {
    assert b == a + (b - a);
  }

  /** A table holds no key but those of its objects. */
  lemma KeysOf(table: Table, objs: seq<Object>)
    requires Holds(table, objs)
    ensures table.Keys == KeySet(objs)
  {
    KeysCounted(objs);
    assert |table.Keys| == |table|;
    SubsetOfSameSize(KeySet(objs), table.Keys);
  }

  lemma KeyComesFromObject(table: Table, objs: seq<Object>, key: string) returns (i: nat)
    requires Holds(table, objs) && key in table
    ensures i < |objs| && objs[i].key == key
  {
    KeysOf(table, objs);
    i :| 0 <= i < |objs| && objs[i].key == key;
  }

  // ----- lemmas about paging -------------------------------------------------------

  /** _iter_snapshot stands after `seen`, about to call with `cursor` unless it is done. */
  ghost predicate Walked(exporter: Exporter, limit: nat, all: seq<Response>, seen: seq<Response>,
                         cursor: Option<string>, left: nat, more: bool) {
    if more then Ends(exporter, cursor, limit, left) && all == seen + Pages(exporter, cursor, limit, left)
    else all == seen
  }

  lemma WalkPrefix(exporter: Exporter, limit: nat, all: seq<Response>, seen: seq<Response>,
                   cursor: Option<string>, left: nat)
    requires Walked(exporter, limit, all, seen, cursor, left, true)
    ensures |seen| < |all| && all[..|seen| + 1] == seen + [exporter(cursor, limit)]
  {
  }

  /** The answer names another page. */
  predicate GoesOn(r: Response, cursor: string) {
    r.Page? && r.cursor == Some(cursor) && cursor != ""
  }

  /** The export is read from the start, each page under the cursor the one before it named,
      until an answer names none; an empty cursor is none. */
  lemma {:induction false} PagesFollowCursors(exporter: Exporter, cursor: Option<string>, limit: nat, n: nat, i: nat)
    requires Ends(exporter, cursor, limit, n) && i < |Pages(exporter, cursor, limit, n)|
    ensures var pages := Pages(exporter, cursor, limit, n);
            && pages[0] == exporter(cursor, limit)
            && (i + 1 < |pages| ==> exists c :: GoesOn(pages[i], c) && pages[i + 1] == exporter(Some(c), limit))
            && (i + 1 == |pages| ==> forall c :: !GoesOn(pages[i], c))
    decreases n
  {
    var r := exporter(cursor, limit);
    if NextCursor(r).Some? {
      assert GoesOn(r, NextCursor(r).value);
      if i > 0 {
        PagesFollowCursors(exporter, NextCursor(r), limit, n - 1, i - 1);
      } else {
        PagesFollowCursors(exporter, NextCursor(r), limit, n - 1, 0);
      }
    }
  }

  /** A row of the export can be stored exactly when it has the source key, no seq or one
      that is an int, and columns there are. */
  lemma GoodRowExactly(p: Projection, row: Fields)
    ensures GoodRow(p, row)
            <==> && p.sourceKey in row && ("seq" in row ==> p.asInt(row["seq"]) != None)
                 && forall column :: column in p.fromSnapshot(row) ==> column in p.columns
  {
    var fields := p.fromSnapshot(row);
    assert forall column :: column in fields.Keys <==> column in fields;
    assert forall column :: column in p.columns.Keys <==> column in p.columns;
  }

  lemma RaisedSpoils(pages: seq<Response>, i: nat)
    requires i < |pages| && pages[i].Raised?
    ensures !Answered(pages)
  {
  }

  lemma WalkStep(exporter: Exporter, limit: nat, all: seq<Response>, seen: seq<Response>,
                 cursor: Option<string>, left: nat, page: Response)
    requires Walked(exporter, limit, all, seen, cursor, left, true) && page == exporter(cursor, limit)
    ensures left > 0 && |seen| < |all| && all[|seen|] == page
    ensures Walked(exporter, limit, all, seen + [page], NextCursor(page), left - 1, NextCursor(page).Some?)
  {
    if NextCursor(page).Some? {
      var rest := Pages(exporter, NextCursor(page), limit, left - 1);
      assert seen + ([page] + rest) == (seen + [page]) + rest;
    }
  }

  lemma AllGoodSplits(p: Projection, a: seq<Fields>, b: seq<Fields>)
    ensures AllGood(p, a + b) <==> AllGood(p, a) && AllGood(p, b)
    ensures AllGood(p, a + b) ==> ObjectsOf(p, a + b) == ObjectsOf(p, a) + ObjectsOf(p, b)
  {
    if AllGood(p, a + b) {
      assert forall i :: 0 <= i < |a| ==> a[i] == (a + b)[i];
      assert forall i :: 0 <= i < |b| ==> b[i] == (a + b)[|a| + i];
    }
  }

  lemma {:induction false} RowsOfPrefix(pages: seq<Response>, k: nat) returns (rest: seq<Fields>)
    requires Answered(pages) && k <= |pages|
    ensures RowsOf(pages) == RowsOf(pages[..k]) + rest
    decreases |pages|
  {
    if k == |pages| {
      assert pages[..k] == pages;
      rest := [];
    } else {
      var front := pages[..|pages| - 1];
      rest := RowsOfPrefix(front, k);
      assert front[..k] == pages[..k];
      rest := rest + pages[|pages| - 1].rows;
    }
  }

  /** If one page cannot be added to what was stored before it, the whole export cannot
      be stored. */
  lemma PageSpoilsExport(p: Projection, all: seq<Response>, seen: seq<Response>, page: Response)
    requires Rebuilds(p, seen) && !page.Raised?
    requires |seen| < |all| && all[..|seen| + 1] == seen + [page]
    requires !Fits(p, seen, page)
    ensures !Rebuilds(p, all)
  {
    if Rebuilds(p, all) {
      var now := seen + [page];
      var rest := RowsOfPrefix(all, |now|);
      RowsOfLast(seen, page);
      AllGoodSplits(p, RowsOf(now), rest);
      AllGoodSplits(p, RowsOf(seen), page.rows);
      DistinctPrefix(ObjectsOf(p, RowsOf(now)), ObjectsOf(p, rest));
      assert false;
    }
  }

  lemma DistinctPrefix(a: seq<Object>, b: seq<Object>)
    requires DistinctKeys(a + b)
    ensures DistinctKeys(a)
  {
    assert forall i :: 0 <= i < |a| ==> a[i] == (a + b)[i];
  }

  lemma RowsOfLast(seen: seq<Response>, page: Response)
    requires Answered(seen) && !page.Raised?
    ensures Answered(seen + [page]) && RowsOf(seen + [page]) == RowsOf(seen) + page.rows
  {
    assert (seen + [page])[..|seen|] == seen;
  }

  ghost predicate CountedTo(seen: seq<Response>, n: nat) {
    Answered(seen) && n == |RowsOf(seen)|
  }

  lemma CountGrows(seen: seq<Response>, page: Response, n: nat)
    requires CountedTo(seen, n) && !page.Raised?
    ensures CountedTo(seen + [page], n + |page.rows|)
  {
    RowsOfLast(seen, page);
  }

  lemma ReportedGrows(seen: seq<Response>, page: Response, progress: seq<(nat, Option<int>)>)
    requires Answered(seen) && !page.Raised? && Reported(seen, progress)
    ensures Answered(seen + [page])
    ensures Reported(seen + [page], progress + [(|RowsOf(seen)| + |page.rows|, TotalOf(page))])
  {
    var now := seen + [page];
    RowsOfLast(seen, page);
    forall i | 0 <= i < |seen| ensures now[..i + 1] == seen[..i + 1] && now[i] == seen[i] {
    }
    assert now[..|seen| + 1] == now;
  }

  lemma PageIsStored(p: Projection, table: Table, seen: seq<Response>, page: Response, r: RebuildResult,
                     progress: seq<(nat, Option<int>)>)
    requires Rebuilds(p, seen) && !page.Raised? && AllGood(p, page.rows)
    requires Reported(seen, progress)
    requires Holds(table, ObjectsOf(p, RowsOf(seen)) + ObjectsOf(p, page.rows))
    requires r == RebuildResult(|RowsOf(seen)| + |page.rows|, |seen| + 1)
    ensures Rebuilds(p, seen + [page])
    ensures IsRebuilt(p, table, seen + [page], r, progress + [(r.rows, TotalOf(page))])
  {
    RowsOfLast(seen, page);
    AllGoodSplits(p, RowsOf(seen), page.rows);
    ReportedGrows(seen, page, progress);
  }
}
