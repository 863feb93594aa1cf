/** The walk of schema_strict.py on a schema in which one dict or list stands in several
    places: copy.deepcopy keeps such sharing, and the walk comes by more than once. */
module SchemaSharing {
  import opened Common
  import opened SchemaStrict
  import opened SchemaWalk

  /** What an entry holds: a value nobody walks into, or a dict or list by its number. */
  datatype Entry = Plain(j: Json) | At(id: nat)

  datatype Node = Dict(fields: map<string, Entry>) | List(items: seq<Entry>)

  /** The dicts and lists of a document without cycles, children before their parents. */
  type Heap = seq<Node>

  predicate Under(e: Entry, n: nat) {
    match e
    case Plain(j) => Flat(j)
    case At(id) => id < n
  }

  predicate NodeUnder(node: Node, n: nat) {
    match node
    case Dict(fields) => forall k :: k in fields ==> Under(fields[k], n)
    case List(items) => forall i :: 0 <= i < |items| ==> Under(items[i], n)
  }

  predicate WellFormed(h: Heap) {
    forall x :: 0 <= x < |h| ==> NodeUnder(h[x], x)
  }

  /** The document an entry spells: sharing does not show. */
  function Doc(h: Heap, e: Entry): Json
    requires WellFormed(h) && Under(e, |h|)
    decreases if e.At? then e.id + 1 else 0
  {
    match e
    case Plain(j) => j
    case At(id) =>
      assert NodeUnder(h[id], id);
      match h[id]
      case Dict(fields) => JObj(map k | k in fields :: Doc(h, fields[k]))
      case List(items) => JArr(seq(|items|, i requires 0 <= i < |items| => Doc(h, items[i])))
  }

  predicate IsDict(h: Heap, e: Entry) {
    e.At? && e.id < |h| && h[e.id].Dict?
  }

  /** One dict with its keywords dropped and its property set closed. */
  function ClosedFields(d: Dialect, h: Heap, fields: map<string, Entry>): map<string, Entry> {
    var kept := map k | k in fields && k !in d.dropped :: fields[k];
    if "properties" in fields && IsDict(h, fields["properties"]) then
      var names := SortedNames(h[fields["properties"].id].fields.Keys);
      kept["required" := Plain(JArr(Strings(names)))]["additionalProperties" := Plain(JBool(false))]
    else kept
  }

  function ClosedNode(d: Dialect, h: Heap, x: nat): Node
    requires x < |h|
  {
    if h[x].Dict? then Dict(ClosedFields(d, h, h[x].fields)) else h[x]
  }

  /** Every dict of the set closed once. */
  function Closes(d: Dialect, h: Heap, closed: set<nat>): Heap {
    seq(|h|, x requires 0 <= x < |h| => if x in closed then ClosedNode(d, h, x) else h[x])
  }

  /** Walking from `e` comes by the dict or list x. */
  ghost predicate Visits(d: Dialect, h: Heap, e: Entry, x: nat)
    requires WellFormed(h) && Under(e, |h|)
    decreases if e.At? then e.id + 1 else 0, 0
  {
    e.At? && (assert NodeUnder(h[e.id], e.id);
              x == e.id ||
              match h[e.id]
              case List(items) => exists i :: 0 <= i < |items| && Visits(d, h, items[i], x)
              case Dict(fields) =>
                || (exists k :: k in fields && k in d.walked && Visits(d, h, fields[k], x))
                || (exists k :: k in fields && k in d.named && VisitsEach(d, h, fields[k], x)))
  }

  ghost predicate VisitsEach(d: Dialect, h: Heap, e: Entry, x: nat)
    requires WellFormed(h) && Under(e, |h|)
    decreases if e.At? then e.id + 1 else 0, 1
  {
    IsDict(h, e) && (assert NodeUnder(h[e.id], e.id);
                     exists p :: p in h[e.id].fields && Visits(d, h, h[e.id].fields[p], x))
  }

  ghost function Visited(d: Dialect, h: Heap, e: Entry): set<nat>
    requires WellFormed(h) && Under(e, |h|)
  {
    set x: nat | x < |h| && Visits(d, h, e, x)
  }

  ghost function VisitedEach(d: Dialect, h: Heap, e: Entry): set<nat>
    requires WellFormed(h) && Under(e, |h|)
  {
    set x: nat | x < |h| && VisitsEach(d, h, e, x)
  }

  // ----- when sharing is harmless --------------------------------------------------------------

  /** No dict of schemas of a visited dict is visited itself. */
  ghost predicate NamedApart(d: Dialect, h: Heap, visited: set<nat>) {
    forall y :: y in visited && y < |h| && h[y].Dict? ==> NodeNamedApart(d, h, y, visited)
  }

  predicate NodeNamedApart(d: Dialect, h: Heap, y: nat, visited: set<nat>)
    requires y < |h| && h[y].Dict?
  {
    forall k :: k in h[y].fields && k in d.named && IsDict(h, h[y].fields[k]) ==> h[y].fields[k].id !in visited
  }

  /** Nothing visited stands anywhere below. */
  predicate Clear(h: Heap, e: Entry, visited: set<nat>)
    requires WellFormed(h) && Under(e, |h|)
    decreases if e.At? then e.id + 1 else 0
  {
    e.At? ==>
      && e.id !in visited
      && (assert NodeUnder(h[e.id], e.id);
          match h[e.id]
          case Dict(fields) => forall k :: k in fields ==> Clear(h, fields[k], visited)
          case List(items) => forall i :: 0 <= i < |items| ==> Clear(h, items[i], visited))
  }

  /** An entry the walk neither drops, nor sets, nor goes into. */
  predicate LeftAlone(d: Dialect, h: Heap, fields: map<string, Entry>, k: string)
    requires k in fields
  {
    && k !in d.dropped && k !in d.walked && !(k in d.named && IsDict(h, fields[k]))
    && !(&& "properties" in fields && IsDict(h, fields["properties"]) && k in {"required", "additionalProperties"})
  }

  ghost predicate DataApart(d: Dialect, h: Heap, visited: set<nat>)
    requires WellFormed(h)
  {
    forall y :: y in visited && y < |h| && h[y].Dict? ==> NodeDataApart(d, h, y, visited)
  }

  predicate NodeDataApart(d: Dialect, h: Heap, y: nat, visited: set<nat>)
    requires WellFormed(h) && y < |h| && h[y].Dict?
  {
    assert NodeUnder(h[y], y);
    forall k :: k in h[y].fields && LeftAlone(d, h, h[y].fields, k) ==> Clear(h, h[y].fields[k], visited)
  }

  /** What is shared is shared between schemas only. */
  ghost predicate OnlySchemasShared(d: Dialect, h: Heap, visited: set<nat>)
    requires WellFormed(h)
  {
    NamedApart(d, h, visited) && DataApart(d, h, visited)
  }

  lemma ClosesWellFormed(d: Dialect, h: Heap, closed: set<nat>)
    requires WellFormed(h)
    ensures WellFormed(Closes(d, h, closed))
  {
    forall x | 0 <= x < |h| ensures NodeUnder(Closes(d, h, closed)[x], x) {
      assert NodeUnder(h[x], x);
    }
  }

  lemma {:induction false} ClearStays(d: Dialect, h: Heap, e: Entry, visited: set<nat>)
    requires WellFormed(h) && WellFormed(Closes(d, h, visited)) && Under(e, |h|) && Clear(h, e, visited)
    ensures Doc(Closes(d, h, visited), e) == Doc(h, e)
    decreases if e.At? then e.id + 1 else 0
  {
    if e.At? {
      assert NodeUnder(h[e.id], e.id);
      match h[e.id]
      case Dict(fields) =>
        forall k | k in fields ensures Doc(Closes(d, h, visited), fields[k]) == Doc(h, fields[k]) {
          ClearStays(d, h, fields[k], visited);
        }
      case List(items) =>
        forall i | 0 <= i < |items| ensures Doc(Closes(d, h, visited), items[i]) == Doc(h, items[i]) {
          ClearStays(d, h, items[i], visited);
        }
    }
  }

  lemma VisitedBelow(d: Dialect, h: Heap, id: nat, k: string)
    requires WellFormed(h) && id < |h| && h[id].Dict? && k in h[id].fields && Under(h[id].fields[k], |h|)
    ensures k in d.walked ==> Visited(d, h, h[id].fields[k]) <= Visited(d, h, At(id))
    ensures k in d.named ==> VisitedEach(d, h, h[id].fields[k]) <= Visited(d, h, At(id))
  {
  }

  /** What the entries of a dict become when it is closed and they are as they should be. */
  ghost predicate EntriesDone(d: Dialect, h: Heap, after: Heap, fields: map<string, Entry>)
    requires WellFormed(h) && WellFormed(after) && |after| == |h|
    requires forall k :: k in fields ==> Under(fields[k], |h|)
  {
    && (forall k :: k in fields && k in d.walked ==> Doc(after, fields[k]) == Strict(d, Doc(h, fields[k])))
    && (forall k :: k in fields && k in d.named ==> Doc(after, fields[k]) == StrictEach(d, Doc(h, fields[k])))
    && (forall k :: k in fields && k !in d.named && LeftAlone(d, h, fields, k) ==>
          Doc(after, fields[k]) == Doc(h, fields[k]))
  }

  lemma ClosedEntry(d: Dialect, h: Heap, after: Heap, fields: map<string, Entry>, m: map<string, Json>, k: string)
    requires d.Sound() && WellFormed(h) && WellFormed(after) && |after| == |h| && m.Keys == fields.Keys
    requires forall x :: x in fields ==> Under(fields[x], |h|) && m[x] == Doc(h, fields[x])
    requires EntriesDone(d, h, after, fields) && k in ClosedFields(d, h, fields)
    ensures k in Strict(d, JObj(m)).fields && Under(ClosedFields(d, h, fields)[k], |h|)
    ensures Doc(after, ClosedFields(d, h, fields)[k]) == Strict(d, JObj(m)).fields[k]
  {
    HasPropertiesHere(h, fields, m);
    if !(HasProperties(m) && k in {"required", "additionalProperties"}) {
      StrictKeyword(d, m, k);
    }
  }

  lemma ClosedKeys(d: Dialect, h: Heap, fields: map<string, Entry>, m: map<string, Json>)
    requires WellFormed(h) && m.Keys == fields.Keys
    requires forall x :: x in fields ==> Under(fields[x], |h|) && m[x] == Doc(h, fields[x])
    ensures Strict(d, JObj(m)).fields.Keys == ClosedFields(d, h, fields).Keys
  {
    HasPropertiesHere(h, fields, m);
  }

  lemma ClosedDoc(d: Dialect, h: Heap, id: nat, visited: set<nat>)
    requires d.Sound() && WellFormed(h) && WellFormed(Closes(d, h, visited)) && id < |h| && h[id].Dict?
    requires id in visited && forall k :: k in h[id].fields ==> Under(h[id].fields[k], |h|)
    requires EntriesDone(d, h, Closes(d, h, visited), h[id].fields)
    ensures Doc(Closes(d, h, visited), At(id)) == Strict(d, Doc(h, At(id)))
  {
    var fields, after := h[id].fields, Closes(d, h, visited);
    var m := map k | k in fields :: Doc(h, fields[k]);
    DocOfDict(h, id, m);
    ClosedKeys(d, h, fields, m);
    forall k | k in after[id].fields ensures Doc(after, after[id].fields[k]) == Strict(d, JObj(m)).fields[k] {
      ClosedEntry(d, h, after, fields, m, k);
    }
    forall k | k in after[id].fields ensures Under(after[id].fields[k], |h|) {
      ClosedEntry(d, h, after, fields, m, k);
    }
    DocOfDict(after, id, Strict(d, JObj(m)).fields);
  }

  lemma DocOfDict(h: Heap, id: nat, m: map<string, Json>)
    requires WellFormed(h) && id < |h| && h[id].Dict? && m.Keys == h[id].fields.Keys
    requires forall k :: k in m ==> Under(h[id].fields[k], |h|) && m[k] == Doc(h, h[id].fields[k])
    ensures Doc(h, At(id)) == JObj(m)
  {
    assert NodeUnder(h[id], id);
    assert Doc(h, At(id)).fields == m;
  }

  lemma HasPropertiesHere(h: Heap, fields: map<string, Entry>, m: map<string, Json>)
    requires WellFormed(h) && m.Keys == fields.Keys
    requires forall k :: k in fields ==> Under(fields[k], |h|) && m[k] == Doc(h, fields[k])
    ensures HasProperties(m) <==> "properties" in fields && IsDict(h, fields["properties"])
    ensures HasProperties(m) ==> m["properties"].fields.Keys == h[fields["properties"].id].fields.Keys
  {
    if "properties" in fields && IsDict(h, fields["properties"]) {
      var id := fields["properties"].id;
      assert NodeUnder(h[id], id);
    }
  }

  /** Closing every visited dict once spells the transform. */
  lemma {:induction false} ClosesMeansStrict(d: Dialect, h: Heap, e: Entry, visited: set<nat>)
    requires d.Sound() && WellFormed(h) && WellFormed(Closes(d, h, visited)) && Under(e, |h|)
    requires Visited(d, h, e) <= visited && OnlySchemasShared(d, h, visited)
    ensures Doc(Closes(d, h, visited), e) == Strict(d, Doc(h, e))
    decreases if e.At? then e.id + 1 else 0, 0
  {
    if e.Plain? {
      FlatIsFixed(d, e.j);
      return;
    }
    assert NodeUnder(h[e.id], e.id) && e.id in Visited(d, h, e);
    match h[e.id]
    case List(items) =>
      forall i | 0 <= i < |items| ensures Doc(Closes(d, h, visited), items[i]) == Strict(d, Doc(h, items[i])) {
        assert Visited(d, h, items[i]) <= Visited(d, h, e);
        ClosesMeansStrict(d, h, items[i], visited);
      }
    case Dict(fields) =>
      assert NodeNamedApart(d, h, e.id, visited) && NodeDataApart(d, h, e.id, visited);
      forall k | k in fields && k in d.walked
        ensures Doc(Closes(d, h, visited), fields[k]) == Strict(d, Doc(h, fields[k]))
      {
        VisitedBelow(d, h, e.id, k);
        ClosesMeansStrict(d, h, fields[k], visited);
      }
      forall k | k in fields && k in d.named
        ensures Doc(Closes(d, h, visited), fields[k]) == StrictEach(d, Doc(h, fields[k]))
      {
        VisitedBelow(d, h, e.id, k);
        if IsDict(h, fields[k]) {
          ClosesMeansEach(d, h, fields[k], visited);
        } else {
          ClearStays(d, h, fields[k], visited);
        }
      }
      forall k | k in fields && k !in d.named && LeftAlone(d, h, fields, k)
        ensures Doc(Closes(d, h, visited), fields[k]) == Doc(h, fields[k])
      {
        ClearStays(d, h, fields[k], visited);
      }
      ClosedDoc(d, h, e.id, visited);
  }

  lemma {:induction false} ClosesMeansEach(d: Dialect, h: Heap, e: Entry, visited: set<nat>)
    requires d.Sound() && WellFormed(h) && WellFormed(Closes(d, h, visited)) && Under(e, |h|)
    requires IsDict(h, e) && e.id !in visited
    requires VisitedEach(d, h, e) <= visited && OnlySchemasShared(d, h, visited)
    ensures Doc(Closes(d, h, visited), e) == StrictEach(d, Doc(h, e))
    decreases if e.At? then e.id + 1 else 0, 1
  {
    assert NodeUnder(h[e.id], e.id);
    var fields := h[e.id].fields;
    forall p | p in fields ensures Doc(Closes(d, h, visited), fields[p]) == Strict(d, Doc(h, fields[p])) {
      assert Visited(d, h, fields[p]) <= VisitedEach(d, h, e);
      ClosesMeansStrict(d, h, fields[p], visited);
    }
    assert Doc(Closes(d, h, visited), e).fields == StrictEach(d, Doc(h, e)).fields;
  }

  // ----- the walk ------------------------------------------------------------------------------

  /** Where a walk stands: the document it started from, what it will come by, and what it
      has closed so far, kept while sharing is harmless. */
  datatype Track = Track(first: Heap, visited: set<nat>, closed: set<nat>, harmless: bool)

  ghost predicate Follows(d: Dialect, t: Track, nodes: Heap) {
    t.harmless ==>
      && WellFormed(t.first) && NamedApart(d, t.first, t.visited) && t.closed <= t.visited
      && nodes == Closes(d, t.first, t.closed)
  }

  /** What is ahead is among what the walk comes by. */
  ghost predicate Ahead(d: Dialect, t: Track, e: Entry) {
    t.harmless ==> WellFormed(t.first) && Under(e, |t.first|) && Visited(d, t.first, e) <= t.visited
  }

  ghost predicate AheadEach(d: Dialect, t: Track, e: Entry) {
    t.harmless ==> WellFormed(t.first) && Under(e, |t.first|) && VisitedEach(d, t.first, e) <= t.visited
  }

  ghost function After(d: Dialect, t: Track, e: Entry): Track
    requires Ahead(d, t, e)
  {
    if t.harmless then t.(closed := t.closed + Visited(d, t.first, e)) else t
  }

  ghost function AfterEach(d: Dialect, t: Track, e: Entry): Track
    requires AheadEach(d, t, e)
  {
    if t.harmless then t.(closed := t.closed + VisitedEach(d, t.first, e)) else t
  }

  predicate Pruned(d: Dialect, node: Node) {
    node.Dict? ==> node.fields.Keys !! d.dropped
  }

  predicate SameKind(a: Node, b: Node) {
    a.Dict? <==> b.Dict?
  }

  /** Whatever is shared: a walk below n keeps what lies above, and brings no dropped
      keyword back. */
  ghost predicate Kept(d: Dialect, before: Heap, after: Heap, n: nat) {
    && |after| == |before| && WellFormed(after)
    && (forall x :: n <= x < |before| ==> after[x] == before[x])
    && (forall x :: 0 <= x < |before| ==> SameKind(before[x], after[x]))
    && (forall x :: 0 <= x < |before| && Pruned(d, before[x]) ==> Pruned(d, after[x]))
  }

  lemma KeptTwice(d: Dialect, a: Heap, b: Heap, c: Heap, n: nat)
    requires Kept(d, a, b, n) && Kept(d, b, c, n)
    ensures Kept(d, a, c, n)
  {
  }

  function Rank(e: Entry): nat {
    if e.At? then e.id + 1 else 0
  }

  /** Closing a dict that may have been closed before. */
  lemma ClosesOneMore(d: Dialect, h: Heap, closed: set<nat>, visited: set<nat>, id: nat)
    requires d.Sound() && WellFormed(h) && NamedApart(d, h, visited) && closed <= visited
    requires id in visited && id < |h| && h[id].Dict?
    ensures var now := Closes(d, h, closed);
            now[id := ClosedNode(d, now, id)] == Closes(d, h, closed + {id})
  {
    var now, fields := Closes(d, h, closed), h[id].fields;
    assert NodeNamedApart(d, h, id, visited);
    assert ClosedFields(d, now, fields) == ClosedFields(d, h, fields);
    var once := ClosedFields(d, h, fields);
    assert ClosedFields(d, now, once) == once;
  }

  /** The entries the walk goes into. */
  predicate SameChildren(d: Dialect, a: Node, b: Node) {
    a.Dict? && b.Dict? && forall k :: k in d.named + d.walked ==>
      (k in a.fields <==> k in b.fields) && (k in a.fields ==> a.fields[k] == b.fields[k])
  }

  predicate ChildrenPruned(d: Dialect, h: Heap, id: nat) {
    id < |h| && h[id].Dict? && forall k :: k in h[id].fields && k in d.walked ==>
      var e := h[id].fields[k];
      IsDict(h, e) ==> Pruned(d, h[e.id])
  }

  /** On the way through the dict `id`, whose entries are `fields`. */
  ghost predicate Within(d: Dialect, t: Track, id: nat, now: Track, fields: map<string, Entry>) {
    && now == t.(closed := now.closed)
    && (t.harmless ==>
          && WellFormed(t.first) && id < |t.first| && id in now.closed && t.closed <= now.closed
          && NodeNamed(d, t, id) && SameChildren(d, t.first[id], Dict(fields))
          && now.closed <= t.closed + Visited(d, t.first, At(id)) <= t.visited)
  }

  /** On the way through the dict of schemas `c`. */
  ghost predicate WithinEach(d: Dialect, t: Track, c: nat, now: Track) {
    && now == t.(closed := now.closed)
    && (t.harmless ==>
          && WellFormed(t.first) && c < |t.first| && t.closed <= now.closed
          && now.closed <= t.closed + VisitedEach(d, t.first, At(c)) <= t.visited + t.closed
          && VisitedEach(d, t.first, At(c)) <= t.visited)
  }

  ghost predicate NodeNamed(d: Dialect, t: Track, id: nat) {
    id < |t.first| && t.first[id].Dict? && NodeNamedApart(d, t.first, id, t.visited)
  }

  class Copied {
    var nodes: Heap

    constructor (nodes: Heap)
      ensures this.nodes == nodes
    {
      this.nodes := nodes;
    }

    /** The pops and the two assignments of one dict. */
    method Close(d: Dialect, id: nat, ghost t: Track)
      requires d.Sound() && WellFormed(nodes) && id < |nodes| && nodes[id].Dict?
      requires Follows(d, t, nodes) && (t.harmless ==> id in t.visited)
      modifies this
      ensures nodes == old(nodes)[id := ClosedNode(d, old(nodes), id)]
      ensures Kept(d, old(nodes), nodes, id + 1) && Pruned(d, nodes[id])
      ensures Follows(d, t.(closed := t.closed + {id}), nodes)
    {
      if t.harmless {
        ClosesOneMore(d, t.first, t.closed, t.visited, id);
      }
      nodes := nodes[id := ClosedNode(d, nodes, id)];
      assert NodeUnder(old(nodes)[id], id);
    }

    /** `_walk`. */
    method Walk(d: Dialect, e: Entry, ghost t: Track)
      requires d.Sound() && WellFormed(nodes) && Under(e, |nodes|) && Follows(d, t, nodes) && Ahead(d, t, e)
      modifies this
      ensures Kept(d, old(nodes), nodes, Rank(e)) && Follows(d, After(d, t, e), nodes)
      ensures e.At? ==> Pruned(d, nodes[e.id])
      decreases Rank(e), 0
    {
      if e.Plain? {
        return;
      }
      if nodes[e.id].List? {
        WalkItems(d, e.id, t);
      } else {
        WalkDict(d, e.id, t);
      }
    }

    method WalkItems(d: Dialect, id: nat, ghost t: Track)
      requires d.Sound() && WellFormed(nodes) && id < |nodes| && nodes[id].List?
      requires Follows(d, t, nodes) && Ahead(d, t, At(id))
      modifies this
      ensures Kept(d, old(nodes), nodes, id) && Follows(d, After(d, t, At(id)), nodes)
      decreases id, 1
    {
      ghost var now := t.(closed := t.closed + {id});
      var items := nodes[id].items;
      assert NodeUnder(nodes[id], id);
      for i := 0 to |items|
        invariant Kept(d, old(nodes), nodes, id) && Follows(d, now, nodes)
        invariant now == t.(closed := now.closed)
        invariant t.harmless ==> t.closed + {id} <= now.closed <= After(d, t, At(id)).closed
        invariant t.harmless ==> forall j :: 0 <= j < i ==> Visited(d, t.first, items[j]) <= now.closed
      {
        Walk(d, items[i], now);
        now := After(d, now, items[i]);
      }
    }

    method WalkDict(d: Dialect, id: nat, ghost t: Track)
      requires d.Sound() && WellFormed(nodes) && id < |nodes| && nodes[id].Dict?
      requires Follows(d, t, nodes) && Ahead(d, t, At(id))
      modifies this
      ensures Kept(d, old(nodes), nodes, id + 1) && Follows(d, After(d, t, At(id)), nodes) && Pruned(d, nodes[id])
      ensures SameChildren(d, old(nodes)[id], nodes[id]) && ChildrenPruned(d, nodes, id)
      decreases id, 3
    {
      Close(d, id, t);
      ghost var now := t.(closed := t.closed + {id});
      ghost var closed := nodes;
      assert t.harmless ==> id in Visited(d, t.first, At(id)) && NodeNamed(d, t, id);
      now := WalkNamed(d, id, t, now);
      KeptTwice(d, old(nodes), closed, nodes, id + 1);
      now := WalkKeys(d, id, t, now);
      KeptTwice(d, old(nodes), closed, nodes, id + 1);
      if t.harmless {
        assert now.closed == After(d, t, At(id)).closed;
      }
    }

    /** The loops over the dicts of schemas. */
    method WalkNamed(d: Dialect, id: nat, ghost t: Track, ghost start: Track) returns (ghost now: Track)
      requires d.Sound() && WellFormed(nodes) && id < |nodes| && nodes[id].Dict? && Follows(d, start, nodes)
      requires Within(d, t, id, start, nodes[id].fields)
      modifies this
      ensures Kept(d, old(nodes), nodes, id) && Follows(d, now, nodes) && Within(d, t, id, now, nodes[id].fields)
      ensures start.closed <= now.closed
      ensures t.harmless ==> forall k :: k in nodes[id].fields && k in d.named ==>
                VisitedEach(d, t.first, nodes[id].fields[k]) <= now.closed
      decreases id, 2
    {
      now := start;
      var todo := d.named;
      var fields := nodes[id].fields;
      while todo != {}
        invariant todo <= d.named && Kept(d, old(nodes), nodes, id) && Follows(d, now, nodes)
        invariant Within(d, t, id, now, fields) && start.closed <= now.closed
        invariant t.harmless ==> forall k :: k in fields && k in d.named - todo ==>
                    VisitedEach(d, t.first, fields[k]) <= now.closed
        decreases |todo|
      {
        var k :| k in todo;
        todo := todo - {k};
        now := WalkNamedAt(d, id, k, t, now);
      }
    }

    method WalkNamedAt(d: Dialect, id: nat, k: string, ghost t: Track, ghost start: Track) returns (ghost now: Track)
      requires d.Sound() && WellFormed(nodes) && id < |nodes| && nodes[id].Dict? && Follows(d, start, nodes)
      requires Within(d, t, id, start, nodes[id].fields) && k in d.named
      modifies this
      ensures Kept(d, old(nodes), nodes, id) && Follows(d, now, nodes) && Within(d, t, id, now, nodes[id].fields)
      ensures start.closed <= now.closed
      ensures t.harmless && k in nodes[id].fields ==> VisitedEach(d, t.first, nodes[id].fields[k]) <= now.closed
      decreases id, 1
    {
      now := start;
      var fields := nodes[id].fields;
      assert NodeUnder(nodes[id], id);
      if k in fields && fields[k].At? && nodes[fields[k].id].Dict? {
        WalkValues(d, fields[k].id, now);
        now := AfterEach(d, now, fields[k]);
      }
    }

    /** The values of one dict of schemas. */
    method WalkValues(d: Dialect, c: nat, ghost t: Track)
      requires d.Sound() && WellFormed(nodes) && c < |nodes| && nodes[c].Dict?
      requires Follows(d, t, nodes) && AheadEach(d, t, At(c)) && (t.harmless ==> c !in t.visited)
      modifies this
      ensures Kept(d, old(nodes), nodes, c) && Follows(d, AfterEach(d, t, At(c)), nodes)
      decreases c, 2
    {
      ghost var now := t;
      var fields := nodes[c].fields;
      var todo := fields.Keys;
      while todo != {}
        invariant todo <= fields.Keys && Kept(d, old(nodes), nodes, c) && Follows(d, now, nodes)
        invariant WithinEach(d, t, c, now)
        invariant t.harmless ==> forall p :: p in fields && p !in todo ==> Visited(d, t.first, fields[p]) <= now.closed
        decreases |todo|
      {
        var p :| p in todo;
        todo := todo - {p};
        now := WalkValueAt(d, c, p, t, now);
      }
    }

    method WalkValueAt(d: Dialect, c: nat, p: string, ghost t: Track, ghost start: Track) returns (ghost now: Track)
      requires d.Sound() && WellFormed(nodes) && c < |nodes| && nodes[c].Dict? && p in nodes[c].fields
      requires Follows(d, start, nodes) && WithinEach(d, t, c, start) && (t.harmless ==> c !in t.visited)
      modifies this
      ensures Kept(d, old(nodes), nodes, c) && Follows(d, now, nodes) && WithinEach(d, t, c, now)
      ensures start.closed <= now.closed
      ensures t.harmless ==> Under(nodes[c].fields[p], |t.first|)
      ensures t.harmless ==> Visited(d, t.first, nodes[c].fields[p]) <= now.closed
      decreases c, 1
    {
      assert NodeUnder(nodes[c], c);
      var e := nodes[c].fields[p];
      if t.harmless {
        assert Visited(d, t.first, e) <= VisitedEach(d, t.first, At(c));
      }
      Walk(d, e, start);
      now := After(d, start, e);
    }

    /** The loop over the keywords whose value is a schema or a list of them. */
    method WalkKeys(d: Dialect, id: nat, ghost t: Track, ghost start: Track) returns (ghost now: Track)
      requires d.Sound() && WellFormed(nodes) && id < |nodes| && nodes[id].Dict? && Follows(d, start, nodes)
      requires Within(d, t, id, start, nodes[id].fields)
      modifies this
      ensures Kept(d, old(nodes), nodes, id) && Follows(d, now, nodes) && Within(d, t, id, now, nodes[id].fields)
      ensures start.closed <= now.closed && ChildrenPruned(d, nodes, id)
      ensures t.harmless ==> forall k :: k in nodes[id].fields && k in d.walked ==>
                Visited(d, t.first, nodes[id].fields[k]) <= now.closed
      decreases id, 2
    {
      now := start;
      var todo := d.walked;
      var fields := nodes[id].fields;
      while todo != {}
        invariant todo <= d.walked && Kept(d, old(nodes), nodes, id) && Follows(d, now, nodes)
        invariant Within(d, t, id, now, fields) && start.closed <= now.closed
        invariant t.harmless ==> forall k :: k in fields && k in d.walked - todo ==>
                    Visited(d, t.first, fields[k]) <= now.closed
        invariant forall k :: k in fields && k in d.walked - todo && IsDict(nodes, fields[k]) ==>
                    Pruned(d, nodes[fields[k].id])
        decreases |todo|
      {
        var k :| k in todo;
        todo := todo - {k};
        now := WalkKeyAt(d, id, k, t, now);
      }
    }

    method WalkKeyAt(d: Dialect, id: nat, k: string, ghost t: Track, ghost start: Track) returns (ghost now: Track)
      requires d.Sound() && WellFormed(nodes) && id < |nodes| && nodes[id].Dict? && Follows(d, start, nodes)
      requires Within(d, t, id, start, nodes[id].fields) && k in d.walked
      modifies this
      ensures Kept(d, old(nodes), nodes, id) && Follows(d, now, nodes) && Within(d, t, id, now, nodes[id].fields)
      ensures start.closed <= now.closed
      ensures t.harmless && k in nodes[id].fields ==> Visited(d, t.first, nodes[id].fields[k]) <= now.closed
      ensures k in nodes[id].fields && IsDict(nodes, nodes[id].fields[k]) ==>
                Pruned(d, nodes[nodes[id].fields[k].id])
      decreases id, 1
    {
      now := start;
      var fields := nodes[id].fields;
      assert NodeUnder(nodes[id], id);
      if k in fields {
        Walk(d, fields[k], now);
        now := After(d, now, fields[k]);
      }
    }
  }

  /** to_strict_subset on the copy of a schema with sharing: the outcome is the transform when
      what is shared is shared between schemas only. */
  method ToStrictShared(copy: Copied, root: Entry)
    requires WellFormed(copy.nodes) && Under(root, |copy.nodes|)
    modifies copy
    ensures WellFormed(copy.nodes) && Under(root, |copy.nodes|)
    ensures var h := old(copy.nodes);
            OnlySchemasShared(STRICT_SUBSET, h, Visited(STRICT_SUBSET, h, root)) ==>
              Doc(copy.nodes, root) == Strict(STRICT_SUBSET, Doc(h, root))
  {
    StrictSubsetIsSound();
    ghost var h, d := copy.nodes, STRICT_SUBSET;
    ghost var visited := Visited(d, h, root);
    ghost var harmless := OnlySchemasShared(d, h, visited);
    assert Closes(d, h, {}) == h;
    copy.Walk(STRICT_SUBSET, root, Track(h, visited, {}, harmless));
    if harmless {
      assert {} + visited == visited;
      ClosesMeansStrict(d, h, root, visited);
    }
  }

  /** And when a dict is both the properties of an object and the schema of its items it is
      not: each property that has the name of a dropped keyword is lost. */
  method SharedBothWays(copy: Copied, id: nat, c: nat, name: string)
    requires WellFormed(copy.nodes) && c < id < |copy.nodes| && copy.nodes[id].Dict? && copy.nodes[c].Dict?
    requires "properties" in copy.nodes[id].fields && copy.nodes[id].fields["properties"] == At(c)
    requires "items" in copy.nodes[id].fields && copy.nodes[id].fields["items"] == At(c)
    requires name in copy.nodes[c].fields && name in STRICT_SUBSET.dropped
    modifies copy
    ensures WellFormed(copy.nodes) && id < |copy.nodes|
    ensures Doc(copy.nodes, At(id)) != Strict(STRICT_SUBSET, old(Doc(copy.nodes, At(id))))
  {
    StrictSubsetIsSound();
    ghost var h, d := copy.nodes, STRICT_SUBSET;
    copy.WalkDict(STRICT_SUBSET, id, Track(h, {}, {}, false));
    assert NodeUnder(h[id], id) && NodeUnder(copy.nodes[id], id);
    assert NodeUnder(h[c], c) && NodeUnder(copy.nodes[c], c);
    assert copy.nodes[id].fields["properties"] == At(c) && copy.nodes[id].fields["items"] == At(c);
    ghost var out := Doc(copy.nodes, At(id));
    assert out.fields["properties"] == Doc(copy.nodes, At(c));
    assert name !in out.fields["properties"].fields;
    assert Doc(h, At(id)).fields["properties"] == Doc(h, At(c));
    PropertiesSurvive(d, Doc(h, At(id)).fields);
  }
}
