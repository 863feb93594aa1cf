/** What a schema means, and what the strict-subset transform keeps of it
    (JSON Schema 2020-12 Core section 10.3.2, Validation section 6.5.3). */
module SchemaMeaning {
  import opened Common
  import opened SchemaStrict

  /** What a reference string points at. */
  datatype Ref = WholeDocument | InDefs(name: string) | InDefinitions(name: string) | Nowhere

  /** What the theorem does not depend on: the meaning of any keyword that looks at
      its own value and the instance only, of a schema-valued additionalProperties
      on the members that are left over, and the syntax of references. */
  datatype Meaning = Meaning(
    leaf: (string, Json, Json) -> bool,
    rest: (Json, map<string, Json>) -> bool,
    ref: string -> Ref)

  /** Plain: as the standard says.  Exact: also, wherever an object meets a node with
      properties, it carries exactly those.  Erased: Exact with the dropped keywords
      ignored, and with required and additionalProperties ignored on such nodes. */
  datatype Reading = Plain | Exact | Erased

  /** The dialect walks every keyword that applies a schema. */
  ghost predicate Walks(d: Dialect) {
    && d.Sound()
    && "$defs" in d.named && "definitions" in d.named
    && "items" in d.walked && "prefixItems" in d.walked
    && "anyOf" in d.walked && "allOf" in d.walked && "oneOf" in d.walked
    && "$ref" !in d.dropped + d.named + d.walked
  }

  lemma StrictSubsetWalks()
    ensures Walks(STRICT_SUBSET)
  {
    StrictSubsetIsSound();
  }

  predicate IsLeaf(d: Dialect, k: string) {
    k !in d.named && k !in d.walked && k != "required" && k != "additionalProperties" && k != "$ref"
  }

  // ----- references ----------------------------------------------------------------

  function Lookup(root: Json, container: string, name: string): Option<Json> {
    if root.JObj? && container in root.fields && root.fields[container].JObj? && name in root.fields[container].fields
    then Some(root.fields[container].fields[name])
    else None
  }

  function Target(root: Json, ref: Ref): Option<Json> {
    match ref
    case WholeDocument => Some(root)
    case InDefs(name) => Lookup(root, "$defs", name)
    case InDefinitions(name) => Lookup(root, "definitions", name)
    case Nowhere => None
  }

  // ----- validity ------------------------------------------------------------------

  ghost predicate Leaves(d: Dialect, mean: Meaning, m: map<string, Json>, v: Json, how: Reading) {
    forall k :: k in m && IsLeaf(d, k) && !(how.Erased? && k in d.dropped) ==> mean.leaf(k, m[k], v)
  }

  predicate RequiredOk(m: map<string, Json>, members: map<string, Json>) {
    "required" in m && m["required"].JArr? ==>
      forall x :: x in m["required"].items && x.JStr? ==> x.s in members
  }

  ghost predicate RestOk(mean: Meaning, m: map<string, Json>, extra: map<string, Json>) {
    "additionalProperties" in m ==>
      if m["additionalProperties"] == JBool(false) then extra == map[] else mean.rest(m["additionalProperties"], extra)
  }

  /** Does instance `v` satisfy schema `s` of document `root`, following references
      at most `n` deep? */
  ghost predicate Sat(d: Dialect, mean: Meaning, n: nat, root: Json, s: Json, v: Json, how: Reading)
    decreases n, s, 1
  {
    match s
    case JBool(b) => b
    case JObj(m) =>
      && Leaves(d, mean, m, v, how)
      && (v.JObj? ==> SatMembers(d, mean, n, root, s, v, how))
      && (v.JArr? ==> SatElements(d, mean, n, root, s, v, how))
      && SatLists(d, mean, n, root, s, v, how)
      && SatRef(d, mean, n, root, s, v, how)
    case _ => false
  }

  /** How many schemas of a list the instance satisfies. */
  ghost function SatCount(d: Dialect, mean: Meaning, n: nat, root: Json, list: Json, v: Json, how: Reading): nat
    requires list.JArr?
    decreases n, list, 0
  {
    |set i | 0 <= i < |list.items| && Sat(d, mean, n, root, list.items[i], v, how)|
  }

  ghost predicate SatLists(d: Dialect, mean: Meaning, n: nat, root: Json, s: Json, v: Json, how: Reading)
    requires s.JObj?
    decreases n, s, 0
  {
    var m := s.fields;
    && ("anyOf" in m && m["anyOf"].JArr? ==> SatCount(d, mean, n, root, m["anyOf"], v, how) >= 1)
    && ("allOf" in m && m["allOf"].JArr? ==> SatCount(d, mean, n, root, m["allOf"], v, how) == |m["allOf"].items|)
    && ("oneOf" in m && m["oneOf"].JArr? ==> SatCount(d, mean, n, root, m["oneOf"], v, how) == 1)
  }

  ghost predicate SatRef(d: Dialect, mean: Meaning, n: nat, root: Json, s: Json, v: Json, how: Reading)
    requires s.JObj?
    decreases n, s, 0
  {
    "$ref" in s.fields && s.fields["$ref"].JStr? ==>
      var target := Target(root, mean.ref(s.fields["$ref"].s));
      n > 0 && target.Some? && Sat(d, mean, n - 1, root, target.value, v, how)
  }

  ghost predicate SatMembers(d: Dialect, mean: Meaning, n: nat, root: Json, s: Json, v: Json, how: Reading)
    requires s.JObj? && v.JObj?
    decreases n, s, 0
  {
    var m := s.fields;
    if HasProperties(m) then
      && (forall p :: p in m["properties"].fields && p in v.fields ==>
            Sat(d, mean, n, root, m["properties"].fields[p], v.fields[p], how))
      && (how != Plain ==> v.fields.Keys == m["properties"].fields.Keys)
      && (how != Erased ==>
            RequiredOk(m, v.fields) && RestOk(mean, m, v.fields - m["properties"].fields.Keys))
    else
      RequiredOk(m, v.fields) && RestOk(mean, m, v.fields)
  }

  function PrefixLength(m: map<string, Json>): nat {
    if "prefixItems" in m && m["prefixItems"].JArr? then |m["prefixItems"].items| else 0
  }

  /** Item by item, as far as both lists go. */
  ghost predicate SatTuple(d: Dialect, mean: Meaning, n: nat, root: Json, list: Json, v: Json, how: Reading)
    requires list.JArr? && v.JArr?
    decreases n, list, 0
  {
    forall i :: 0 <= i < |list.items| && i < |v.items| ==> Sat(d, mean, n, root, list.items[i], v.items[i], how)
  }

  ghost predicate SatElements(d: Dialect, mean: Meaning, n: nat, root: Json, s: Json, v: Json, how: Reading)
    requires s.JObj? && v.JArr?
    decreases n, s, 0
  {
    var m := s.fields;
    && ("prefixItems" in m && m["prefixItems"].JArr? ==> SatTuple(d, mean, n, root, m["prefixItems"], v, how))
    && ("items" in m ==>
          if m["items"].JArr? then SatTuple(d, mean, n, root, m["items"], v, how)
          else forall i :: PrefixLength(m) <= i < |v.items| ==> Sat(d, mean, n, root, m["items"], v.items[i], how))
  }

  // ----- the transform and the meaning -----------------------------------------------

  lemma TargetOfStrict(d: Dialect, root: Json, ref: Ref)
    requires Walks(d)
    ensures Target(Strict(d, root), ref) ==
            if Target(root, ref).None? then None else Some(Strict(d, Target(root, ref).value))
  {
    LookupInStrict(d, root, "$defs");
    LookupInStrict(d, root, "definitions");
  }

  lemma LookupInStrict(d: Dialect, root: Json, container: string)
    requires d.Sound() && container in d.named
    ensures forall name :: Lookup(Strict(d, root), container, name) ==
              if Lookup(root, container, name).None? then None else Some(Strict(d, Lookup(root, container, name).value))
  {
    if root.JObj? && container in root.fields {
      StrictKeyword(d, root.fields, container);
    }
  }

  /** An instance is valid under the transformed schema exactly when it satisfies
      the original with the dropped keywords ignored and every object carrying
      exactly the declared keys: nothing else of the meaning changes. */
  lemma {:induction false} StrictMeaning(d: Dialect, mean: Meaning, n: nat, root: Json, s: Json, v: Json)
    requires Walks(d)
    ensures Sat(d, mean, n, Strict(d, root), Strict(d, s), v, Plain) <==> Sat(d, mean, n, root, s, v, Erased)
    decreases n, s, 1
  {
    if s.JObj? {
      LeavesOfStrict(d, mean, s.fields, v);
      if v.JObj? {
        MembersOfStrict(d, mean, n, root, s, v);
      }
      if v.JArr? {
        ElementsOfStrict(d, mean, n, root, s, v);
      }
      ListsOfStrict(d, mean, n, root, s, v);
      RefOfStrict(d, mean, n, root, s, v);
    }
  }

  lemma ListsOfStrict(d: Dialect, mean: Meaning, n: nat, root: Json, s: Json, v: Json)
    requires Walks(d) && s.JObj?
    ensures SatLists(d, mean, n, Strict(d, root), Strict(d, s), v, Plain) <==> SatLists(d, mean, n, root, s, v, Erased)
    decreases n, s, 0
  {
    var m := s.fields;
    KeywordsOfStrict(d, m);
    forall k | k in m && k in d.walked && m[k].JArr?
      ensures SatCount(d, mean, n, Strict(d, root), Strict(d, m[k]), v, Plain)
              == SatCount(d, mean, n, root, m[k], v, Erased)
    {
      CountOfStrict(d, mean, n, root, m[k], v);
    }
  }

  lemma RefOfStrict(d: Dialect, mean: Meaning, n: nat, root: Json, s: Json, v: Json)
    requires Walks(d) && s.JObj?
    ensures SatRef(d, mean, n, Strict(d, root), Strict(d, s), v, Plain) <==> SatRef(d, mean, n, root, s, v, Erased)
    decreases n, s, 0
  {
    RefKeyword(d, s.fields);
    if "$ref" in s.fields && s.fields["$ref"].JStr? {
      var ref := mean.ref(s.fields["$ref"].s);
      var target := Target(root, ref);
      TargetOfStrict(d, root, ref);
      RefUnfolds(d, mean, n, root, s, target, v, Erased);
      if n == 0 || target.None? {
        RefUnfolds(d, mean, n, Strict(d, root), Strict(d, s), Target(Strict(d, root), ref), v, Plain);
      } else {
        RefUnfolds(d, mean, n, Strict(d, root), Strict(d, s), Some(Strict(d, target.value)), v, Plain);
        StrictMeaning(d, mean, n - 1, root, target.value, v);
      }
    }
  }

  /** A node's reference is satisfied when it has a target and that is. */
  lemma RefUnfolds(d: Dialect, mean: Meaning, n: nat, root: Json, s: Json, target: Option<Json>, v: Json, how: Reading)
    requires s.JObj? && "$ref" in s.fields && s.fields["$ref"].JStr?
    requires target == Target(root, mean.ref(s.fields["$ref"].s))
    ensures SatRef(d, mean, n, root, s, v, how)
            <==> n > 0 && target.Some? && Sat(d, mean, n - 1, root, target.value, v, how)
  {
  }

  lemma RefKeyword(d: Dialect, m: map<string, Json>)
    requires Walks(d)
    ensures var out := Strict(d, JObj(m)).fields;
            ("$ref" in out <==> "$ref" in m) && ("$ref" in m ==> out["$ref"] == m["$ref"])
  {
  }

  /** Which keywords the transformed node has, and with what value. */
  lemma KeywordsOfStrict(d: Dialect, m: map<string, Json>)
    requires Walks(d)
    ensures var out := Strict(d, JObj(m)).fields;
            && (forall k :: k in d.walked ==> (k in out <==> k in m) && (k in m ==> out[k] == Strict(d, m[k])))
            && (HasProperties(out) <==> HasProperties(m))
  {
    forall k | k in m && (k in d.walked || k == "properties")
      ensures k in Strict(d, JObj(m)).fields
      ensures Strict(d, JObj(m)).fields[k] ==
              if k in d.named then StrictEach(d, m[k]) else Strict(d, m[k])
    {
      StrictKeyword(d, m, k);
    }
  }

  lemma LeavesOfStrict(d: Dialect, mean: Meaning, m: map<string, Json>, v: Json)
    requires Walks(d)
    ensures Leaves(d, mean, Strict(d, JObj(m)).fields, v, Plain) <==> Leaves(d, mean, m, v, Erased)
  {
    var out := Strict(d, JObj(m)).fields;
    forall k | IsLeaf(d, k) ensures k in out <==> k in m && k !in d.dropped {
    }
    forall k | k in m && IsLeaf(d, k) && k !in d.dropped ensures out[k] == m[k] {
      StrictKeyword(d, m, k);
    }
  }

  lemma CountOfStrict(d: Dialect, mean: Meaning, n: nat, root: Json, list: Json, v: Json)
    requires Walks(d) && list.JArr?
    ensures SatCount(d, mean, n, Strict(d, root), Strict(d, list), v, Plain)
            == SatCount(d, mean, n, root, list, v, Erased)
    decreases n, list, 0
  {
    var xs, ys := list.items, Strict(d, list).items;
    forall i | 0 <= i < |xs|
      ensures Sat(d, mean, n, Strict(d, root), ys[i], v, Plain) <==> Sat(d, mean, n, root, xs[i], v, Erased)
    {
      StrictMeaning(d, mean, n, root, xs[i], v);
    }
    assert (set i | 0 <= i < |ys| && Sat(d, mean, n, Strict(d, root), ys[i], v, Plain))
        == (set i | 0 <= i < |xs| && Sat(d, mean, n, root, xs[i], v, Erased));
  }

  lemma MembersOfStrict(d: Dialect, mean: Meaning, n: nat, root: Json, s: Json, v: Json)
    requires Walks(d) && s.JObj? && v.JObj?
    ensures SatMembers(d, mean, n, Strict(d, root), Strict(d, s), v, Plain)
            <==> SatMembers(d, mean, n, root, s, v, Erased)
    decreases n, s, 0
  {
    var m, out := s.fields, Strict(d, s).fields;
    if HasProperties(m) {
      PropertiesSurvive(d, m);
      var props := m["properties"].fields;
      forall p | p in props && p in v.fields
        ensures Sat(d, mean, n, Strict(d, root), out["properties"].fields[p], v.fields[p], Plain)
                <==> Sat(d, mean, n, root, props[p], v.fields[p], Erased)
      {
        StrictMeaning(d, mean, n, root, props[p], v.fields[p]);
      }
      ClosedMeansExact(d, mean, m, v.fields);
    } else {
      KeywordsOfStrict(d, m);
      OpenNodeKeepsRules(d, m);
    }
  }

  /** A closed node requires every declared key and forbids all others. */
  lemma ClosedMeansExact(d: Dialect, mean: Meaning, m: map<string, Json>, members: map<string, Json>)
    requires d.Sound() && HasProperties(m)
    ensures var out, names := Strict(d, JObj(m)).fields, m["properties"].fields.Keys;
            RequiredOk(out, members) && RestOk(mean, out, members - names) <==> members.Keys == names
  {
    var out, names := Strict(d, JObj(m)).fields, m["properties"].fields.Keys;
    assert out["required"] == RequiredOf(m) && out["additionalProperties"] == JBool(false);
    RequiredNames(m, members);
    NoneLeftOver(members, names);
    assert RequiredOk(out, members) <==> names <= members.Keys;
    assert RestOk(mean, out, members - names) <==> members - names == map[];
  }

  lemma NoneLeftOver(members: map<string, Json>, names: set<string>)
    ensures members - names == map[] <==> members.Keys <= names
  {
    var extra := members - names;
    assert extra.Keys == members.Keys - names;
    if extra == map[] {
      forall k | k in members ensures k in names {
        assert k !in extra;
      }
    } else {
      var k :| k in extra;
      assert k in members && k !in names;
    }
  }

  lemma RequiredNames(m: map<string, Json>, members: map<string, Json>)
    requires HasProperties(m)
    ensures (forall x :: x in RequiredOf(m).items && x.JStr? ==> x.s in members)
            <==> m["properties"].fields.Keys <= members.Keys
  {
    var names := m["properties"].fields.Keys;
    var sorted := SortedNames(names);
    SortedNamesSorts(names);
    var items := RequiredOf(m).items;
    forall p | p in names ensures JStr(p) in items {
      var i :| 0 <= i < |sorted| && sorted[i] == p;
      assert items[i] == JStr(p);
    }
    forall x | x in items ensures x.JStr? && x.s in names {
      var i :| 0 <= i < |items| && items[i] == x;
      assert x == JStr(sorted[i]);
    }
  }

  lemma OpenNodeKeepsRules(d: Dialect, m: map<string, Json>)
    requires d.Sound() && !HasProperties(m)
    ensures var out := Strict(d, JObj(m)).fields;
            && ("required" in out <==> "required" in m)
            && ("required" in m ==> out["required"] == m["required"])
            && ("additionalProperties" in out <==> "additionalProperties" in m)
            && ("additionalProperties" in m ==> out["additionalProperties"] == m["additionalProperties"])
  {
  }

  lemma TupleOfStrict(d: Dialect, mean: Meaning, n: nat, root: Json, list: Json, v: Json)
    requires Walks(d) && list.JArr? && v.JArr?
    ensures SatTuple(d, mean, n, Strict(d, root), Strict(d, list), v, Plain)
            <==> SatTuple(d, mean, n, root, list, v, Erased)
    decreases n, list, 0
  {
    forall i | 0 <= i < |list.items| && i < |v.items|
      ensures Sat(d, mean, n, Strict(d, root), Strict(d, list).items[i], v.items[i], Plain)
              <==> Sat(d, mean, n, root, list.items[i], v.items[i], Erased)
    {
      StrictMeaning(d, mean, n, root, list.items[i], v.items[i]);
    }
  }

  lemma ElementsOfStrict(d: Dialect, mean: Meaning, n: nat, root: Json, s: Json, v: Json)
    requires Walks(d) && s.JObj? && v.JArr?
    ensures SatElements(d, mean, n, Strict(d, root), Strict(d, s), v, Plain)
            <==> SatElements(d, mean, n, root, s, v, Erased)
    decreases n, s, 0
  {
    var m := s.fields;
    KeywordsOfStrict(d, m);
    if "prefixItems" in m && m["prefixItems"].JArr? {
      TupleOfStrict(d, mean, n, root, m["prefixItems"], v);
    }
    if "items" in m && m["items"].JArr? {
      TupleOfStrict(d, mean, n, root, m["items"], v);
    } else if "items" in m {
      forall i | 0 <= i < |v.items|
        ensures Sat(d, mean, n, Strict(d, root), Strict(d, m["items"]), v.items[i], Plain)
                <==> Sat(d, mean, n, root, m["items"], v.items[i], Erased)
      {
        StrictMeaning(d, mean, n, root, m["items"], v.items[i]);
      }
    }
  }

  /** Under a transformed schema, valid and "valid with exactly the declared keys and
      the dropped keywords ignored" are the same thing. */
  lemma StrictSchemasAreExact(d: Dialect, mean: Meaning, n: nat, root: Json, s: Json, v: Json)
    requires Walks(d) && InSubset(d, root) && InSubset(d, s)
    ensures Sat(d, mean, n, root, s, v, Plain) <==> Sat(d, mean, n, root, s, v, Erased)
  {
    SubsetIsFixed(d, root);
    SubsetIsFixed(d, s);
    StrictMeaning(d, mean, n, root, s, v);
  }

  // ----- no oneOf: nothing valid and exact is lost -------------------------------------

  /** No reached node has a oneOf. */
  predicate NoOneOf(d: Dialect, j: Json) {
    match j
    case JArr(xs) => forall i :: 0 <= i < |xs| ==> NoOneOf(d, xs[i])
    case JObj(m) =>
      && "oneOf" !in m
      && (forall k :: k in m && k in d.named ==> NoOneOfInEach(d, m[k]))
      && (forall k :: k in m && k in d.walked ==> NoOneOf(d, m[k]))
    case _ => true
  }

  predicate NoOneOfInEach(d: Dialect, j: Json) {
    j.JObj? ==> forall p :: p in j.fields ==> NoOneOf(d, j.fields[p])
  }

  lemma TargetHasNoOneOf(d: Dialect, root: Json, ref: Ref)
    requires Walks(d) && NoOneOf(d, root) && Target(root, ref).Some?
    ensures NoOneOf(d, Target(root, ref).value)
  {
  }

  lemma SubsetCount(a: set<int>, b: set<int>)
    requires a <= b
    ensures |a| <= |b|
  {
    assert b == a + (b - a);
  }

  lemma {:induction false} CountUpTo(a: set<int>, n: nat)
    requires forall i :: i in a ==> 0 <= i < n
    ensures |a| <= n
  {
    if n > 0 {
      CountUpTo(a - {n - 1}, n - 1);
      if n - 1 in a {
        assert |a| == |a - {n - 1}| + 1;
      } else {
        assert a - {n - 1} == a;
      }
    } else {
      assert forall i :: i !in a;
    }
  }

  lemma {:induction false} ExactIsErased(d: Dialect, mean: Meaning, n: nat, root: Json, s: Json, v: Json)
    requires Walks(d) && NoOneOf(d, root) && NoOneOf(d, s)
    ensures Sat(d, mean, n, root, s, v, Exact) ==> Sat(d, mean, n, root, s, v, Erased)
    decreases n, s, 1
  {
    if s.JObj? {
      if v.JObj? {
        MembersExactIsErased(d, mean, n, root, s, v);
      }
      if v.JArr? {
        ElementsExactIsErased(d, mean, n, root, s, v);
      }
      ListsExactIsErased(d, mean, n, root, s, v);
      RefExactIsErased(d, mean, n, root, s, v);
    }
  }

  lemma RefExactIsErased(d: Dialect, mean: Meaning, n: nat, root: Json, s: Json, v: Json)
    requires Walks(d) && NoOneOf(d, root) && NoOneOf(d, s) && s.JObj?
    ensures SatRef(d, mean, n, root, s, v, Exact) ==> SatRef(d, mean, n, root, s, v, Erased)
    decreases n, s, 0
  {
    if "$ref" in s.fields && s.fields["$ref"].JStr? {
      var ref := mean.ref(s.fields["$ref"].s);
      if n > 0 && Target(root, ref).Some? {
        TargetHasNoOneOf(d, root, ref);
        ExactIsErased(d, mean, n - 1, root, Target(root, ref).value, v);
      }
    }
  }

  lemma CountExactIsErased(d: Dialect, mean: Meaning, n: nat, root: Json, list: Json, v: Json)
    requires Walks(d) && NoOneOf(d, root) && NoOneOf(d, list) && list.JArr?
    ensures SatCount(d, mean, n, root, list, v, Exact) <= SatCount(d, mean, n, root, list, v, Erased) <= |list.items|
    decreases n, list, 0
  {
    var xs := list.items;
    forall i | 0 <= i < |xs|
      ensures Sat(d, mean, n, root, xs[i], v, Exact) ==> Sat(d, mean, n, root, xs[i], v, Erased)
    {
      ExactIsErased(d, mean, n, root, xs[i], v);
    }
    var erased := set i | 0 <= i < |xs| && Sat(d, mean, n, root, xs[i], v, Erased);
    SubsetCount((set i | 0 <= i < |xs| && Sat(d, mean, n, root, xs[i], v, Exact)), erased);
    CountUpTo(erased, |xs|);
  }

  lemma ListsExactIsErased(d: Dialect, mean: Meaning, n: nat, root: Json, s: Json, v: Json)
    requires Walks(d) && NoOneOf(d, root) && NoOneOf(d, s) && s.JObj?
    ensures SatLists(d, mean, n, root, s, v, Exact) ==> SatLists(d, mean, n, root, s, v, Erased)
    decreases n, s, 0
  {
    var m := s.fields;
    if "anyOf" in m && m["anyOf"].JArr? {
      CountExactIsErased(d, mean, n, root, m["anyOf"], v);
    }
    if "allOf" in m && m["allOf"].JArr? {
      CountExactIsErased(d, mean, n, root, m["allOf"], v);
    }
  }

  lemma MembersExactIsErased(d: Dialect, mean: Meaning, n: nat, root: Json, s: Json, v: Json)
    requires Walks(d) && NoOneOf(d, root) && NoOneOf(d, s) && s.JObj? && v.JObj?
    ensures SatMembers(d, mean, n, root, s, v, Exact) ==> SatMembers(d, mean, n, root, s, v, Erased)
    decreases n, s, 0
  {
    if HasProperties(s.fields) {
      var props := s.fields["properties"].fields;
      forall p | p in props && p in v.fields
        ensures Sat(d, mean, n, root, props[p], v.fields[p], Exact) ==>
            Sat(d, mean, n, root, props[p], v.fields[p], Erased)
      {
        ExactIsErased(d, mean, n, root, props[p], v.fields[p]);
      }
    }
  }

  lemma TupleExactIsErased(d: Dialect, mean: Meaning, n: nat, root: Json, list: Json, v: Json)
    requires Walks(d) && NoOneOf(d, root) && NoOneOf(d, list) && list.JArr? && v.JArr?
    ensures SatTuple(d, mean, n, root, list, v, Exact) ==> SatTuple(d, mean, n, root, list, v, Erased)
    decreases n, list, 0
  {
    forall i | 0 <= i < |list.items| && i < |v.items|
      ensures Sat(d, mean, n, root, list.items[i], v.items[i], Exact) ==>
          Sat(d, mean, n, root, list.items[i], v.items[i], Erased)
    {
      ExactIsErased(d, mean, n, root, list.items[i], v.items[i]);
    }
  }

  lemma ElementsExactIsErased(d: Dialect, mean: Meaning, n: nat, root: Json, s: Json, v: Json)
    requires Walks(d) && NoOneOf(d, root) && NoOneOf(d, s) && s.JObj? && v.JArr?
    ensures SatElements(d, mean, n, root, s, v, Exact) ==> SatElements(d, mean, n, root, s, v, Erased)
    decreases n, s, 0
  {
    var m := s.fields;
    if "prefixItems" in m && m["prefixItems"].JArr? {
      TupleExactIsErased(d, mean, n, root, m["prefixItems"], v);
    }
    if "items" in m && m["items"].JArr? {
      TupleExactIsErased(d, mean, n, root, m["items"], v);
    } else if "items" in m {
      forall i | 0 <= i < |v.items|
        ensures Sat(d, mean, n, root, m["items"], v.items[i], Exact) ==>
            Sat(d, mean, n, root, m["items"], v.items[i], Erased)
      {
        ExactIsErased(d, mean, n, root, m["items"], v.items[i]);
      }
    }
  }

  /** The promise of the transform: a value valid under a oneOf-free schema, whose
      objects carry exactly the declared keys, stays valid. */
  lemma StrictKeepsValid(mean: Meaning, n: nat, schema: Json, v: Json)
    requires NoOneOf(STRICT_SUBSET, schema)
    requires Sat(STRICT_SUBSET, mean, n, schema, schema, v, Exact)
    ensures var out := Strict(STRICT_SUBSET, schema);
            Sat(STRICT_SUBSET, mean, n, out, out, v, Plain)
  {
    StrictSubsetWalks();
    ExactIsErased(STRICT_SUBSET, mean, n, schema, schema, v);
    StrictMeaning(STRICT_SUBSET, mean, n, schema, schema, v);
  }

  /** Why oneOf is left out: with the length limits gone both branches match, and the
      value that matched exactly one is rejected. */
  lemma OneOfCanBreak(mean: Meaning)
    requires !mean.leaf("minLength", JInt(3), JStr("ab"))
    requires mean.leaf("maxLength", JInt(2), JStr("ab"))
    ensures var long, short := JObj(map["minLength" := JInt(3)]), JObj(map["maxLength" := JInt(2)]);
            var schema, d := JObj(map["oneOf" := JArr([long, short])]), STRICT_SUBSET;
            && Sat(d, mean, 0, schema, schema, JStr("ab"), Exact)
            && !Sat(d, mean, 0, Strict(d, schema), Strict(d, schema), JStr("ab"), Plain)
  {
    var long, short := JObj(map["minLength" := JInt(3)]), JObj(map["maxLength" := JInt(2)]);
    StrictSubsetWalks();
    OneOfTwoLimits(STRICT_SUBSET, mean, "minLength", JInt(3), "maxLength", JInt(2), JStr("ab"));
  }

  lemma OneOfTwoLimits(d: Dialect, mean: Meaning, k1: string, w1: Json, k2: string, w2: Json, v: Json)
    requires Walks(d) && v.JStr? && k1 in d.dropped && k2 in d.dropped
    requires !mean.leaf(k1, w1, v) && mean.leaf(k2, w2, v)
    ensures var schema := JObj(map["oneOf" := JArr([JObj(map[k1 := w1]), JObj(map[k2 := w2])])]);
            && Sat(d, mean, 0, schema, schema, v, Exact)
            && !Sat(d, mean, 0, Strict(d, schema), Strict(d, schema), v, Plain)
  {
    var a, b := JObj(map[k1 := w1]), JObj(map[k2 := w2]);
    var schema := JObj(map["oneOf" := JArr([a, b])]);
    LimitNode(d, mean, schema, k1, w1, v);
    LimitNode(d, mean, schema, k2, w2, v);
    OneOfNode(d, mean, schema, a, b, v, Exact);
    OneOfNode(d, mean, schema, a, b, v, Erased);
    StrictMeaning(d, mean, 0, schema, schema, v);
  }

  /** A node with one dropped keyword: exact reading asks it, erased reading does not. */
  lemma LimitNode(d: Dialect, mean: Meaning, root: Json, k: string, w: Json, v: Json)
    requires Walks(d) && k in d.dropped && v.JStr?
    ensures Sat(d, mean, 0, root, JObj(map[k := w]), v, Exact) <==> mean.leaf(k, w, v)
    ensures Sat(d, mean, 0, root, JObj(map[k := w]), v, Erased)
  {
    var m := map[k := w];
    assert k in m && IsLeaf(d, k);
  }

  lemma OneOfNode(d: Dialect, mean: Meaning, root: Json, a: Json, b: Json, v: Json, how: Reading)
    requires Walks(d) && v.JStr?
    ensures Sat(d, mean, 0, root, JObj(map["oneOf" := JArr([a, b])]), v, how)
            <==> Sat(d, mean, 0, root, a, v, how) != Sat(d, mean, 0, root, b, v, how)
  {
    CountOfTwo(d, mean, root, JArr([a, b]), v, how);
    OneOfIsCount(d, mean, root, JArr([a, b]), v, how);
  }

  lemma OneOfIsCount(d: Dialect, mean: Meaning, root: Json, list: Json, v: Json, how: Reading)
    requires Walks(d) && v.JStr? && list.JArr?
    ensures Sat(d, mean, 0, root, JObj(map["oneOf" := list]), v, how) <==> SatCount(d, mean, 0, root, list, v, how) == 1
  {
    var s := JObj(map["oneOf" := list]);
    assert SatLists(d, mean, 0, root, s, v, how) <==> SatCount(d, mean, 0, root, list, v, how) == 1;
  }

  lemma CountOfTwo(d: Dialect, mean: Meaning, root: Json, list: Json, v: Json, how: Reading)
    requires list.JArr? && |list.items| == 2
    ensures SatCount(d, mean, 0, root, list, v, how) ==
            (if Sat(d, mean, 0, root, list.items[0], v, how) then 1 else 0)
            + (if Sat(d, mean, 0, root, list.items[1], v, how) then 1 else 0)
  {
    var hits := set i | 0 <= i < |list.items| && Sat(d, mean, 0, root, list.items[i], v, how);
    TwoHits(0 in hits, 1 in hits, hits);
  }

  lemma TwoHits(first: bool, second: bool, hits: set<int>)
    requires hits <= {0, 1} && (0 in hits <==> first) && (1 in hits <==> second)
    ensures |hits| == (if first then 1 else 0) + (if second then 1 else 0)
  {
    if first && second {
      assert hits == {0, 1};
    } else if first {
      assert hits == {0};
    } else if second {
      assert hits == {1};
    } else {
      assert hits == {};
    }
  }
}
