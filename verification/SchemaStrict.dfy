/** The strict-subset transform of schema_strict.py on JSON Schema documents, and
    what it keeps of a schema's meaning. */
module SchemaStrict {
  import opened Common

  /** The keywords a transform drops, those whose value is a dict of schemas, and
      those whose value is a schema or a list of schemas. */
  datatype Dialect = Dialect(dropped: set<string>, named: set<string>, walked: set<string>)
  {
    /** No keyword plays two roles. */
    ghost predicate Sound() {
      && dropped !! named && dropped !! walked && named !! walked
      && "properties" in named
      && "required" !in dropped + named + walked
      && "additionalProperties" !in dropped + named + walked
    }
  }

  const STRICT_SUBSET: Dialect := Dialect(
    {"minLength", "maxLength", "minimum", "maximum", "exclusiveMinimum", "exclusiveMaximum",
     "minItems", "maxItems", "pattern", "format", "default"},
    {"properties", "$defs", "definitions"},
    {"items", "anyOf", "oneOf", "allOf", "prefixItems"})

  lemma StrictSubsetIsSound()
    ensures STRICT_SUBSET.Sound()
  {
  }

  // ----- sorted(props.keys()) ----------------------------------------------------

  predicate StrLeq(a: string, b: string) {
    a == "" || (b != "" && (a[0] < b[0] || (a[0] == b[0] && StrLeq(a[1..], b[1..]))))
  }

  lemma {:induction false} StrLeqOrder(a: string, b: string)
    ensures StrLeq(a, b) || StrLeq(b, a)
    ensures StrLeq(a, b) && StrLeq(b, a) ==> a == b
  {
    if a != "" && b != "" && a[0] == b[0] {
      StrLeqOrder(a[1..], b[1..]);
      assert a == [a[0]] + a[1..] && b == [b[0]] + b[1..];
    }
  }

  lemma {:induction false} StrLeqTransitive(a: string, b: string, c: string)
    requires StrLeq(a, b) && StrLeq(b, c)
    ensures StrLeq(a, c)
  {
    if a != "" && a[0] == b[0] == c[0] {
      StrLeqTransitive(a[1..], b[1..], c[1..]);
    }
  }

  lemma {:induction false} LeastExists(names: set<string>)
    requires names != {}
    ensures exists m :: m in names && forall x :: x in names ==> StrLeq(m, x)
  {
    var y :| y in names;
    var rest := names - {y};
    if rest == {} {
      StrLeqOrder(y, y);
      assert names == {y};
    } else {
      LeastExists(rest);
      var m :| m in rest && forall x :: x in rest ==> StrLeq(m, x);
      var least := if StrLeq(m, y) then m else y;
      forall x | x in names ensures StrLeq(least, x) {
        StrLeqOrder(m, y);
        StrLeqOrder(y, y);
        if x != y && least == y {
          StrLeqTransitive(y, m, x);
        }
      }
    }
  }

  lemma LeastIsUnique(names: set<string>)
    ensures forall m, n :: m in names && n in names
              && (forall x :: x in names ==> StrLeq(m, x))
              && (forall x :: x in names ==> StrLeq(n, x))
              ==> m == n
  {
    forall m, n | m in names && n in names && StrLeq(m, n) && StrLeq(n, m) ensures m == n {
      StrLeqOrder(m, n);
    }
  }

  ghost predicate Ascending(names: seq<string>) {
    forall i, j :: 0 <= i < j < |names| ==> StrLeq(names[i], names[j]) && names[i] != names[j]
  }

  function Least(names: set<string>): (m: string)
    requires names != {}
    ensures m in names && forall x :: x in names ==> StrLeq(m, x)
  {
    LeastExists(names);
    LeastIsUnique(names);
    var m :| m in names && forall x :: x in names ==> StrLeq(m, x);
    m
  }

  function SortedNames(names: set<string>): seq<string> {
    if names == {} then [] else [Least(names)] + SortedNames(names - {Least(names)})
  }

  /** sorted(): every name once, in ascending order. */
  lemma {:induction false} SortedNamesSorts(names: set<string>)
    ensures forall x :: x in SortedNames(names) <==> x in names
    ensures |SortedNames(names)| == |names|
    ensures Ascending(SortedNames(names))
  {
    if names != {} {
      SortedNamesSorts(names - {Least(names)});
    }
  }

  function Strings(names: seq<string>): seq<Json> {
    seq(|names|, i requires 0 <= i < |names| => JStr(names[i]))
  }

  // ----- the transform -------------------------------------------------------------

  predicate HasProperties(m: map<string, Json>) {
    "properties" in m && m["properties"].JObj?
  }

  function RequiredOf(m: map<string, Json>): Json
    requires HasProperties(m)
  {
    JArr(Strings(SortedNames(m["properties"].fields.Keys)))
  }

  /** One node with its keywords dropped and its property set closed. */
  function Closed(d: Dialect, m: map<string, Json>): map<string, Json> {
    var kept := map k | k in m && k !in d.dropped :: m[k];
    if HasProperties(m) then kept["required" := RequiredOf(m)]["additionalProperties" := JBool(false)] else kept
  }

  function Strict(d: Dialect, j: Json): Json {
    match j
    case JArr(xs) => JArr(seq(|xs|, i requires 0 <= i < |xs| => Strict(d, xs[i])))
    case JObj(m) =>
      var closed := Closed(d, m);
      JObj(map k | k in closed ::
             if k in m && k in d.named then StrictEach(d, m[k])
             else if k in m && k in d.walked then Strict(d, m[k])
             else closed[k])
    case _ => j
  }

  /** Every schema of a dict of schemas. */
  function StrictEach(d: Dialect, j: Json): Json {
    match j
    case JObj(m) => JObj(map p | p in m :: Strict(d, m[p]))
    case _ => j
  }

  /** The keyword `k` of the transformed node. */
  lemma StrictKeyword(d: Dialect, m: map<string, Json>, k: string)
    requires k in m && k !in d.dropped
    requires HasProperties(m) ==> k != "required" && k != "additionalProperties"
    ensures k in Strict(d, JObj(m)).fields
    ensures Strict(d, JObj(m)).fields[k] ==
            if k in d.named then StrictEach(d, m[k]) else if k in d.walked then Strict(d, m[k]) else m[k]
  {
  }

  // ----- the strict subset -----------------------------------------------------------

  /** Every reached node: no dropped keyword, and each object node requires exactly
      its property names, sorted, and forbids others. */
  predicate InSubset(d: Dialect, j: Json) {
    match j
    case JArr(xs) => forall i :: 0 <= i < |xs| ==> InSubset(d, xs[i])
    case JObj(m) =>
      && NodeInSubset(d, m)
      && (forall k :: k in m && k in d.named ==> EachInSubset(d, m[k]))
      && (forall k :: k in m && k in d.walked ==> InSubset(d, m[k]))
    case _ => true
  }

  predicate EachInSubset(d: Dialect, j: Json) {
    j.JObj? ==> forall p :: p in j.fields ==> InSubset(d, j.fields[p])
  }

  predicate NodeInSubset(d: Dialect, m: map<string, Json>) {
    && (forall k :: k in m ==> k !in d.dropped)
    && (HasProperties(m) ==>
          && "required" in m && m["required"] == RequiredOf(m)
          && "additionalProperties" in m && m["additionalProperties"] == JBool(false))
  }

  /** Every output is in the subset. */
  lemma {:induction false} StrictIsInSubset(d: Dialect, j: Json)
    requires d.Sound()
    ensures InSubset(d, Strict(d, j)) && EachInSubset(d, StrictEach(d, j))
  {
    match j
    case JArr(xs) =>
      forall i | 0 <= i < |xs| ensures InSubset(d, Strict(d, xs[i])) {
        StrictIsInSubset(d, xs[i]);
      }
    case JObj(m) =>
      forall k | k in m ensures InSubset(d, Strict(d, m[k])) && EachInSubset(d, StrictEach(d, m[k])) {
        StrictIsInSubset(d, m[k]);
      }
      StrictNodeInSubset(d, m);
      StrictChildrenInSubset(d, m);
    case _ =>
  }

  lemma StrictChildrenInSubset(d: Dialect, m: map<string, Json>)
    requires d.Sound()
    requires forall k :: k in m ==> InSubset(d, Strict(d, m[k])) && EachInSubset(d, StrictEach(d, m[k]))
    ensures var out := Strict(d, JObj(m)).fields;
            && (forall k :: k in out && k in d.named ==> EachInSubset(d, out[k]))
            && (forall k :: k in out && k in d.walked ==> InSubset(d, out[k]))
  {
    forall k | k in Strict(d, JObj(m)).fields && (k in d.named || k in d.walked) ensures k in m {
      StrictKeyword(d, m, k);
    }
  }

  lemma StrictNodeInSubset(d: Dialect, m: map<string, Json>)
    requires d.Sound()
    ensures NodeInSubset(d, Strict(d, JObj(m)).fields)
  {
    var out := Strict(d, JObj(m)).fields;
    if HasProperties(out) {
        StrictKeyword(d, m, "properties");
      assert out["properties"].fields.Keys == m["properties"].fields.Keys;
      assert out["required"] == RequiredOf(m);
    }
  }

  lemma {:induction false} SubsetIsFixed(d: Dialect, j: Json)
    ensures InSubset(d, j) ==> Strict(d, j) == j
    ensures EachInSubset(d, j) ==> StrictEach(d, j) == j
  {
    match j
    case JArr(xs) =>
      if InSubset(d, j) {
        forall i | 0 <= i < |xs| ensures Strict(d, xs[i]) == xs[i] {
          SubsetIsFixed(d, xs[i]);
        }
        assert Strict(d, j).items == xs;
      }
    case JObj(m) =>
      forall k | k in m
        ensures InSubset(d, m[k]) ==> Strict(d, m[k]) == m[k]
        ensures EachInSubset(d, m[k]) ==> StrictEach(d, m[k]) == m[k]
      {
        SubsetIsFixed(d, m[k]);
      }
      NodeIsFixed(d, m);
      EachIsFixed(d, m);
    case _ =>
  }

  lemma NodeIsFixed(d: Dialect, m: map<string, Json>)
    requires forall k :: k in m && InSubset(d, m[k]) ==> Strict(d, m[k]) == m[k]
    requires forall k :: k in m && EachInSubset(d, m[k]) ==> StrictEach(d, m[k]) == m[k]
    ensures InSubset(d, JObj(m)) ==> Strict(d, JObj(m)) == JObj(m)
  {
    if InSubset(d, JObj(m)) {
      assert Closed(d, m) == m;
      assert Strict(d, JObj(m)).fields == m;
    }
  }

  lemma EachIsFixed(d: Dialect, m: map<string, Json>)
    requires forall k :: k in m && InSubset(d, m[k]) ==> Strict(d, m[k]) == m[k]
    ensures EachInSubset(d, JObj(m)) ==> StrictEach(d, JObj(m)) == JObj(m)
  {
    if EachInSubset(d, JObj(m)) {
      assert StrictEach(d, JObj(m)).fields == m;
    }
  }

  /** The transform changes nothing exactly on the schemas that are in the subset. */
  lemma StrictFixesSubset(d: Dialect, j: Json)
    requires d.Sound()
    ensures Strict(d, j) == j <==> InSubset(d, j)
  {
    StrictIsInSubset(d, j);
    SubsetIsFixed(d, j);
  }

  /** A second pass changes nothing. */
  lemma StrictIsIdempotent(d: Dialect, j: Json)
    requires d.Sound()
    ensures Strict(d, Strict(d, j)) == Strict(d, j)
  {
    StrictIsInSubset(d, j);
    StrictFixesSubset(d, Strict(d, j));
  }

  /** Of a node's keywords the transform drops these eleven and no other. */
  lemma DropsExactly(m: map<string, Json>, k: string)
    requires k in m
    ensures k !in Strict(STRICT_SUBSET, JObj(m)).fields
            <==> || k in {"minLength", "maxLength", "minimum", "maximum", "exclusiveMinimum", "exclusiveMaximum"}
                 || k in {"minItems", "maxItems", "pattern", "format", "default"}
  {
    StrictSubsetIsSound();
  }

  /** It goes into these keywords and no other: what stands elsewhere stays as it is. */
  lemma GoesIntoExactly(m: map<string, Json>, k: string)
    requires k in m && k in Strict(STRICT_SUBSET, JObj(m)).fields
    requires !(HasProperties(m) && k in {"required", "additionalProperties"})
    ensures Strict(STRICT_SUBSET, JObj(m)).fields[k] ==
            if k in {"properties", "$defs", "definitions"} then StrictEach(STRICT_SUBSET, m[k])
            else if k in {"items", "anyOf", "oneOf", "allOf", "prefixItems"} then Strict(STRICT_SUBSET, m[k])
            else m[k]
  {
    StrictSubsetIsSound();
    StrictKeyword(STRICT_SUBSET, m, k);
  }

  /** A property keeps its name whatever it is called, "format" and "default"
      included: only the keywords of a node are dropped, never its properties. */
  lemma PropertiesSurvive(d: Dialect, m: map<string, Json>)
    requires d.Sound() && HasProperties(m)
    ensures var out := Strict(d, JObj(m)).fields;
            && HasProperties(out)
            && out["properties"].fields.Keys == m["properties"].fields.Keys
            && forall p :: p in m["properties"].fields ==>
                 out["properties"].fields[p] == Strict(d, m["properties"].fields[p])
  {
    StrictKeyword(d, m, "properties");
  }
}
