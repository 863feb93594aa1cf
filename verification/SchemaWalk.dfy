/** The walk of schema_strict.py as the source does it: in place, on a tree of
    dicts and lists, proved equal to the function Strict. */
module SchemaWalk {
  import opened Common
  import opened SchemaStrict

  /** What a dict or a list holds: a value nobody walks into, or a container. */
  datatype Item = Value(j: Json) | Box(c: Container)

  /** The document an item spells. */
  ghost function DocOf(item: Item): Json
    requires item.Box? ==> item.c.Valid()
    reads if item.Box? then {item.c} + item.c.repr else {}
  {
    match item
    case Value(j) => j
    case Box(c) => c.Doc()
  }

  predicate Scalar(j: Json) {
    !j.JObj? && !j.JArr?
  }

  /** A value the walk has nothing to do in: a scalar, or a list of scalars. */
  predicate Flat(j: Json) {
    Scalar(j) || (j.JArr? && forall i :: 0 <= i < |j.items| ==> Scalar(j.items[i]))
  }

  lemma FlatIsFixed(d: Dialect, j: Json)
    requires Flat(j)
    ensures Strict(d, j) == j && StrictEach(d, j) == j
  {
    if j.JArr? {
      assert Strict(d, j).items == j.items;
    }
  }

  class Container {
    const isList: bool
    var entries: map<string, Item>
    var items: seq<Item>
    ghost var repr: set<Container>

    /** The item's tree, if it has one, lies strictly inside this one. */
    ghost predicate Holds(item: Item)
      reads this, repr
    {
      match item
      case Value(j) => Flat(j)
      case Box(c) => c in repr && c.repr < repr && this !in c.repr
    }

    ghost predicate Apart(a: Item, b: Item)
      reads if a.Box? then {a.c} else {}, if b.Box? then {b.c} else {}
    {
      a.Box? && b.Box? ==> a.c.repr !! b.c.repr
    }

    /** The tree's outline: its children lie inside it and apart from each other. */
    ghost predicate Shape()
      reads this, repr
    {
      && this in repr
      && (isList ==> entries == map[]) && (!isList ==> items == [])
      && (forall k :: k in entries ==> Holds(entries[k]))
      && (forall k, k' :: k in entries && k' in entries && k != k' ==> Apart(entries[k], entries[k']))
      && (forall i :: 0 <= i < |items| ==> Holds(items[i]))
      && (forall i, j :: 0 <= i < j < |items| ==> Apart(items[i], items[j]))
    }

    ghost predicate Valid()
      reads this, repr
      decreases repr
    {
      && Shape()
      && (forall k :: k in entries && entries[k].Box? ==> entries[k].c.Valid())
      && (forall i :: 0 <= i < |items| && items[i].Box? ==> items[i].c.Valid())
    }

    /** The JSON document this tree spells. */
    ghost function Doc(): Json
      requires Valid()
      reads this, repr
      decreases repr
    {
      if isList then
        JArr(seq(|items|, i requires 0 <= i < |items| && Valid() reads this, repr =>
                   if items[i].Value? then items[i].j else items[i].c.Doc()))
      else
        JObj(map k | k in entries :: if entries[k].Value? then entries[k].j else entries[k].c.Doc())
    }

    /** A dict spells its entries. */
    lemma DictDoc()
      requires Valid() && !isList
      ensures Doc().JObj? && Doc().fields.Keys == entries.Keys
      ensures forall k :: k in entries ==> Doc().fields[k] == DocOf(entries[k])
    {
    }

    /** `_walk` of one item of a list. */
    method WalkItem(d: Dialect, i: nat)
      requires Valid() && isList && i < |items| && d.Sound()
      modifies repr - {this}
      ensures Valid()
      ensures DocOf(items[i]) == Strict(d, old(DocOf(items[i])))
      ensures forall j :: 0 <= j < |items| && j != i ==> DocOf(items[j]) == old(DocOf(items[j]))
      decreases repr, 0
    {
      if items[i].Box? {
        var c := items[i].c;
        assert Holds(items[i]);
        c.Walk(d);
        forall j | 0 <= j < |items| && j != i && items[j].Box?
          ensures items[j].c.Valid() && items[j].c.Doc() == old(items[j].c.Doc())
        {
          assert Apart(items[i], items[j]) && Holds(items[j]);
        }
      } else {
        FlatIsFixed(d, items[i].j);
      }
    }

    /** `_walk` of a list. */
    method WalkItems(d: Dialect)
      requires Valid() && isList && d.Sound()
      modifies repr
      ensures Valid() && repr == old(repr)
      ensures Doc() == Strict(d, old(Doc()))
      decreases repr, 1
    {
      ghost var was := Doc().items;
      for i := 0 to |items|
        invariant Valid() && repr == old(repr) && items == old(items)
        invariant forall j :: 0 <= j < i ==> DocOf(items[j]) == Strict(d, was[j])
        invariant forall j :: i <= j < |items| ==> DocOf(items[j]) == was[j]
      {
        WalkItem(d, i);
      }
      assert Doc().items == Strict(d, JArr(was)).items;
    }

    /** `_walk` of the schema at one key. */
    method WalkSchema(d: Dialect, k: string)
      requires Valid() && !isList && k in entries && d.Sound()
      modifies repr - {this}
      ensures Valid()
      ensures DocOf(entries[k]) == Strict(d, old(DocOf(entries[k])))
      ensures forall k' :: k' in entries && k' != k ==> DocOf(entries[k']) == old(DocOf(entries[k']))
      decreases repr, 0
    {
      if entries[k].Value? {
        FlatIsFixed(d, entries[k].j);
      } else {
        entries[k].c.Walk(d);
      }
    }

    /** The inner loop over the values of the dict at one key. */
    method WalkNamed(d: Dialect, k: string)
      requires Valid() && !isList && k in entries && d.Sound()
      modifies repr - {this}
      ensures Valid()
      ensures DocOf(entries[k]) == StrictEach(d, old(DocOf(entries[k])))
      ensures forall k' :: k' in entries && k' != k ==> DocOf(entries[k']) == old(DocOf(entries[k']))
      decreases repr, 0
    {
      if entries[k].Value? {
        FlatIsFixed(d, entries[k].j);
      } else if !entries[k].c.isList {
        entries[k].c.WalkValues(d);
      }
    }

    method WalkValues(d: Dialect)
      requires Valid() && !isList && d.Sound()
      modifies repr
      ensures Valid() && repr == old(repr)
      ensures Doc() == StrictEach(d, old(Doc()))
      decreases repr, 2
    {
      DictDoc();
      ghost var m := Doc().fields;
      WalkKeys(d, entries.Keys, false);
      DictDoc();
      assert Doc().fields == StrictEach(d, JObj(m)).fields;
    }

    /** The loop over some of the keys. */
    method WalkKeys(d: Dialect, keys: set<string>, each: bool)
      requires Valid() && !isList && d.Sound()
      modifies repr - {this}
      ensures Valid()
      ensures forall k :: k in entries && k !in keys ==> DocOf(entries[k]) == old(DocOf(entries[k]))
      ensures forall k :: k in entries && k in keys ==>
                DocOf(entries[k]) == if each then StrictEach(d, old(DocOf(entries[k])))
                    else Strict(d, old(DocOf(entries[k])))
      decreases repr, 1
    {
      var todo := keys;
      while todo != {}
        invariant Valid()
        invariant todo <= keys
        invariant forall k :: k in entries && (k in todo || k !in keys) ==> DocOf(entries[k]) == old(DocOf(entries[k]))
        invariant forall k :: k in entries && k in keys && k !in todo ==>
                    DocOf(entries[k]) == if each then StrictEach(d, old(DocOf(entries[k])))
                        else Strict(d, old(DocOf(entries[k])))
        decreases |todo|
      {
        var k :| k in todo;
        if k in entries {
          if each {
            WalkNamed(d, k);
          } else {
            WalkSchema(d, k);
          }
        }
        todo := todo - {k};
      }
    }

    /** node.pop(key, None): every other entry spells what it did. */
    method Pop(k: string)
      requires Valid() && !isList
      modifies this
      ensures Valid() && repr == old(repr) && entries == old(entries) - {k}
      ensures forall other :: other in entries ==> DocOf(entries[other]) == old(DocOf(entries[other]))
    {
      entries := entries - {k};
    }

    /** Drop the unsupported keywords of one node. */
    method DropKeywords(d: Dialect)
      requires Valid() && !isList
      modifies this
      ensures Valid() && repr == old(repr)
      ensures entries == map k | k in old(entries) && k !in d.dropped :: old(entries)[k]
      ensures forall k :: k in entries ==> DocOf(entries[k]) == old(DocOf(entries[k]))
    {
      var todo := d.dropped;
      while todo != {}
        invariant Valid() && repr == old(repr) && todo <= d.dropped
        invariant entries == old(entries) - (d.dropped - todo)
        invariant forall k :: k in entries ==> DocOf(entries[k]) == old(DocOf(entries[k]))
        decreases |todo|
      {
        var k :| k in todo;
        Pop(k);
        todo := todo - {k};
      }
    }

    /** The assignment itself: every other entry spells what it did. */
    method Assign(k: string, j: Json)
      requires Valid() && !isList && Flat(j)
      modifies this
      ensures Valid() && repr == old(repr) && entries == old(entries)[k := Value(j)]
      ensures forall other :: other in entries && other != k ==> DocOf(entries[other]) == old(DocOf(entries[other]))
    {
      entries := entries[k := Value(j)];
    }

    /** Set one keyword to a value. */
    method Put(k: string, j: Json)
      requires Valid() && !isList && Flat(j)
      modifies this
      ensures Valid() && repr == old(repr)
      ensures Doc() == JObj(old(Doc()).fields[k := j])
    {
      DictDoc();
      Assign(k, j);
      DictDoc();
    }

    /** Require every property of one object node and forbid others. */
    method CloseProperties()
      requires Valid() && !isList
      modifies this
      ensures Valid() && repr == old(repr)
      ensures var m := old(Doc()).fields;
              Doc() == JObj(if HasProperties(m)
                            then m["required" := RequiredOf(m)]["additionalProperties" := JBool(false)] else m)
    {
      DictDoc();
      if "properties" in entries && entries["properties"].Box? && !entries["properties"].c.isList {
        entries["properties"].c.DictDoc();
        var names := entries["properties"].c.entries.Keys;
        Put("required", JArr(Strings(SortedNames(names))));
        Put("additionalProperties", JBool(false));
      }
    }

    method CloseNode(d: Dialect)
      requires Valid() && !isList && d.Sound()
      modifies this
      ensures Valid() && repr == old(repr)
      ensures Doc() == JObj(Closed(d, old(Doc()).fields))
    {
      DictDoc();
      ghost var m := Doc().fields;
      DropKeywords(d);
      DictDoc();
      assert Doc().fields == map k | k in m && k !in d.dropped :: m[k];
      CloseProperties();
    }

    /** The two groups of child loops. */
    method WalkChildren(d: Dialect)
      requires Valid() && !isList && d.Sound()
      modifies repr - {this}
      ensures Valid()
      ensures forall k :: k in entries ==>
                DocOf(entries[k]) == if k in d.walked then Strict(d, old(DocOf(entries[k])))
                                     else if k in d.named then StrictEach(d, old(DocOf(entries[k])))
                                     else old(DocOf(entries[k]))
      decreases repr, 2
    {
      WalkKeys(d, d.named, true);
      WalkKeys(d, d.walked, false);
    }

    /** `_walk` of a node. */
    method Walk(d: Dialect)
      requires Valid() && d.Sound()
      modifies repr
      ensures Valid() && repr == old(repr)
      ensures Doc() == Strict(d, old(Doc()))
      decreases repr, 3
    {
      if isList {
        WalkItems(d);
      } else {
        ghost var m := Doc().fields;
        CloseNode(d);
        ghost var closed := Doc().fields;
        DictDoc();
        WalkChildren(d);
        DictDoc();
        StrictNodeIs(d, m, closed, Doc().fields);
      }
    }
  }

  /** to_strict_subset: `copy` is what copy.deepcopy made of the schema, and the walk
      runs on it.  The caller's schema still spells what it did. */
  method ToStrictSubset(schema: Container, copy: Container)
    requires schema.Valid() && copy.Valid() && copy.repr !! schema.repr
    requires copy.Doc() == schema.Doc()
    modifies copy.repr
    ensures copy.Valid() && copy.Doc() == Strict(STRICT_SUBSET, old(schema.Doc()))
    ensures schema.Valid() && schema.Doc() == old(schema.Doc())
  {
    StrictSubsetIsSound();
    copy.Walk(STRICT_SUBSET);
  }

  lemma StrictNodeIs(d: Dialect, m: map<string, Json>, closed: map<string, Json>, out: map<string, Json>)
    requires d.Sound() && closed == Closed(d, m) && out.Keys == closed.Keys
    requires forall k :: k in out ==>
               out[k] == if k in d.walked then Strict(d, closed[k]) else if k in d.named
                   then StrictEach(d, closed[k]) else closed[k]
    ensures JObj(out) == Strict(d, JObj(m))
  {
    assert out == Strict(d, JObj(m)).fields;
  }
}
