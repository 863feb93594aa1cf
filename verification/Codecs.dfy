/** That the laws asked of a codec can be met: an encoding of every JSON document as bytes
    that is undone by its decoder, and a digest written in hexadecimal. */
module Codecs {
  import opened Common
  import opened Overflow
  import opened SchemaStrict

  // ----- numbers and text, in unary --------------------------------------------------------

  function PutNat(n: nat): Bytes {
    if n == 0 then [0] else [1] + PutNat(n - 1)
  }

  /** What was read, and what is left. */
  datatype Read<T> = Read(value: T, rest: Bytes) | Broken

  function GetNat(s: Bytes): (r: Read<nat>)
    ensures r.Read? ==> |r.rest| < |s|
  {
    if s == [] then Broken
    else if s[0] == 0 then Read(0, s[1..])
    else match GetNat(s[1..])
      case Read(n, rest) => Read(n + 1, rest)
      case Broken => Broken
  }

  lemma {:induction false} NatReadsBack(n: nat, rest: Bytes)
    ensures GetNat(PutNat(n) + rest) == Read(n, rest)
  {
    if n == 0 {
      assert [0 as Byte] + rest == PutNat(0) + rest;
    } else {
      NatReadsBack(n - 1, rest);
      assert (PutNat(n) + rest)[1..] == PutNat(n - 1) + rest;
    }
  }

  function PutText(s: string): Bytes {
    if s == "" then PutNat(0) else PutNat(s[0] as nat + 1) + PutText(s[1..])
  }

  predicate IsChar(n: nat) {
    n < 0xD800 || 0xE000 <= n < 0x11_0000
  }

  function GetText(s: Bytes): (r: Read<string>)
    ensures r.Read? ==> |r.rest| < |s|
    decreases |s|
  {
    match GetNat(s)
    case Broken => Broken
    case Read(n, rest) =>
      if n == 0 then Read("", rest)
      else if !IsChar(n - 1) then Broken
      else match GetText(rest)
        case Broken => Broken
        case Read(t, more) => Read([(n - 1) as char] + t, more)
  }

  lemma {:induction false} TextReadsBack(s: string, rest: Bytes)
    ensures GetText(PutText(s) + rest) == Read(s, rest)
    decreases |s|
  {
    if s == "" {
      NatReadsBack(0, rest);
    } else {
      var head, tail := PutNat(s[0] as nat + 1), PutText(s[1..]);
      TextReadsBack(s[1..], rest);
      NatReadsBack(s[0] as nat + 1, tail + rest);
      assert head + tail + rest == head + (tail + rest);
      MoreText(head + (tail + rest), s[0], tail + rest, s[1..], rest);
      assert s == [s[0]] + s[1..];
    }
  }

  lemma MoreText(s: Bytes, c: char, rest: Bytes, t: string, last: Bytes)
    requires GetNat(s) == Read(c as nat + 1, rest) && GetText(rest) == Read(t, last)
    ensures GetText(s) == Read([c] + t, last)
  {
  }

  // ----- documents -------------------------------------------------------------------------

  function PutJson(v: Json): Bytes
    decreases v, 1, 0
  {
    match v
    case JNull => [0]
    case JBool(b) => [if b then 1 else 2]
    case JInt(i) => if i >= 0 then [3] + PutNat(i) else [4] + PutNat(-i)
    case JFloat(text) => [5] + PutText(text)
    case JStr(s) => [6] + PutText(s)
    case JArr(items) => [7] + PutItems(v, 0)
    case JObj(fields) => [8] + PutFields(v, fields.Keys)
  }

  function PutItems(v: Json, i: nat): Bytes
    requires v.JArr? && i <= |v.items|
    decreases v, 0, |v.items| - i
  {
    if i == |v.items| then [0] else [1] + (PutJson(v.items[i]) + PutItems(v, i + 1))
  }

  function PutFields(v: Json, names: set<string>): Bytes
    requires v.JObj? && names <= v.fields.Keys
    decreases v, 0, |names|
  {
    if names == {} then [0]
    else
      var k := Least(names);
      [1] + (PutText(k) + (PutJson(v.fields[k]) + PutFields(v, names - {k})))
  }

  function GetJson(s: Bytes): (r: Read<Json>)
    ensures r.Read? ==> |r.rest| < |s|
    decreases |s|, 1
  {
    if s == [] then Broken
    else if s[0] == 0 then Read(JNull, s[1..])
    else if s[0] == 1 || s[0] == 2 then Read(JBool(s[0] == 1), s[1..])
    else if s[0] == 3 || s[0] == 4 then
      match GetNat(s[1..])
      case Broken => Broken
      case Read(n, rest) => Read(JInt(if s[0] == 3 then n else 0 - n), rest)
    else if s[0] == 5 || s[0] == 6 then
      match GetText(s[1..])
      case Broken => Broken
      case Read(t, rest) => Read(if s[0] == 5 then JFloat(t) else JStr(t), rest)
    else if s[0] == 7 then
      match GetItems(s[1..])
      case Broken => Broken
      case Read(items, rest) => Read(JArr(items), rest)
    else if s[0] == 8 then
      match GetFields(s[1..])
      case Broken => Broken
      case Read(fields, rest) => Read(JObj(fields), rest)
    else Broken
  }

  function GetItems(s: Bytes): (r: Read<seq<Json>>)
    ensures r.Read? ==> |r.rest| < |s|
    decreases |s|, 0
  {
    if s == [] then Broken
    else if s[0] == 0 then Read([], s[1..])
    else match GetJson(s[1..])
      case Broken => Broken
      case Read(v, rest) =>
        match GetItems(rest)
        case Broken => Broken
        case Read(items, more) => Read([v] + items, more)
  }

  function GetFields(s: Bytes): (r: Read<map<string, Json>>)
    ensures r.Read? ==> |r.rest| < |s|
    decreases |s|, 0
  {
    if s == [] then Broken
    else if s[0] == 0 then Read(map[], s[1..])
    else match GetText(s[1..])
      case Broken => Broken
      case Read(k, rest) =>
        match GetJson(rest)
        case Broken => Broken
        case Read(v, more) =>
          match GetFields(more)
          case Broken => Broken
          case Read(fields, last) => Read(fields[k := v], last)
  }

  lemma Tagged(tag: Byte, s: Bytes, rest: Bytes)
    ensures ([tag] + s + rest)[0] == tag && ([tag] + s + rest)[1..] == s + rest
  {
  }

  lemma ScalarReadsBack(v: Json, rest: Bytes)
    requires !v.JArr? && !v.JObj?
    ensures GetJson(PutJson(v) + rest) == Read(v, rest)
  {
    match v {
      case JNull => assert ([0] + rest)[1..] == rest;
      case JBool(b) => assert (PutJson(v) + rest)[1..] == rest;
      case JInt(i) => IntReadsBack(i, rest);
      case JFloat(text) =>
        TextReadsBack(text, rest);
        Tagged(5, PutText(text), rest);
      case JStr(t) =>
        TextReadsBack(t, rest);
        Tagged(6, PutText(t), rest);
    }
  }

  lemma IntReadsBack(i: int, rest: Bytes)
    ensures GetJson(PutJson(JInt(i)) + rest) == Read(JInt(i), rest)
  {
    var n := if i >= 0 then i else -i;
    NatReadsBack(n, rest);
    Tagged(if i >= 0 then 3 else 4, PutNat(n), rest);
  }

  lemma {:induction false} JsonReadsBack(v: Json, rest: Bytes)
    ensures GetJson(PutJson(v) + rest) == Read(v, rest)
    decreases v, 1, 0
  {
    if v.JArr? {
      ItemsReadBack(v, 0, rest);
      Tagged(7, PutItems(v, 0), rest);
    } else if v.JObj? {
      FieldsReadBack(v, v.fields.Keys, rest);
      Tagged(8, PutFields(v, v.fields.Keys), rest);
      assert Part(v.fields, v.fields.Keys) == v.fields;
    } else {
      ScalarReadsBack(v, rest);
    }
  }

  lemma {:induction false} ItemsReadBack(v: Json, i: nat, rest: Bytes)
    requires v.JArr? && i <= |v.items|
    ensures GetItems(PutItems(v, i) + rest) == Read(v.items[i..], rest)
    decreases v, 0, |v.items| - i
  {
    if i == |v.items| {
      assert ([0] + rest)[1..] == rest && v.items[i..] == [];
    } else {
      var head, tail := PutJson(v.items[i]), PutItems(v, i + 1);
      JsonReadsBack(v.items[i], tail + rest);
      ItemsReadBack(v, i + 1, rest);
      Regroup([1], head, tail, rest);
      MoreItems([1] + (head + (tail + rest)), v.items[i], tail + rest, v.items[i + 1..], rest);
      assert v.items[i..] == [v.items[i]] + v.items[i + 1..];
    }
  }

  lemma Regroup(a: Bytes, b: Bytes, c: Bytes, rest: Bytes)
    ensures a + (b + c) + rest == a + (b + (c + rest))
  {
  }

  lemma MoreItems(s: Bytes, v: Json, rest: Bytes, items: seq<Json>, last: Bytes)
    requires s != [] && s[0] == 1 && GetJson(s[1..]) == Read(v, rest) && GetItems(rest) == Read(items, last)
    ensures GetItems(s) == Read([v] + items, last)
  {
  }

  lemma MoreFields(s: Bytes, k: string, rest: Bytes, v: Json, more: Bytes, fields: map<string, Json>, last: Bytes)
    requires s != [] && s[0] == 1 && GetText(s[1..]) == Read(k, rest)
    requires GetJson(rest) == Read(v, more) && GetFields(more) == Read(fields, last)
    ensures GetFields(s) == Read(fields[k := v], last)
  {
  }

  ghost function Part(fields: map<string, Json>, names: set<string>): map<string, Json>
    requires names <= fields.Keys
  {
    map k | k in names :: fields[k]
  }

  lemma {:induction false} FieldsReadBack(v: Json, names: set<string>, rest: Bytes)
    requires v.JObj? && names <= v.fields.Keys
    ensures GetFields(PutFields(v, names) + rest) == Read(Part(v.fields, names), rest)
    decreases v, 0, |names|
  {
    if names == {} {
      assert ([0] + rest)[1..] == rest;
    } else {
      var k := Least(names);
      var value, tail := PutJson(v.fields[k]), PutFields(v, names - {k});
      TextReadsBack(k, value + (tail + rest));
      JsonReadsBack(v.fields[k], tail + rest);
      FieldsReadBack(v, names - {k}, rest);
      FieldsUnfold(v, names, rest);
      MoreFields(PutFields(v, names) + rest, k, value + (tail + rest), v.fields[k], tail + rest,
                 Part(v.fields, names - {k}), rest);
      assert Part(v.fields, names) == Part(v.fields, names - {k})[k := v.fields[k]];
    }
  }

  lemma FieldsUnfold(v: Json, names: set<string>, rest: Bytes)
    requires v.JObj? && names <= v.fields.Keys && names != {}
    ensures var k, s := Least(names), PutFields(v, names) + rest;
            && s[0] == 1
            && s[1..] == PutText(k) + (PutJson(v.fields[k]) + (PutFields(v, names - {k}) + rest))
  {
    var k := Least(names);
    FourParts(PutText(k), PutJson(v.fields[k]), PutFields(v, names - {k}), rest);
  }

  lemma FourParts(a: Bytes, b: Bytes, c: Bytes, rest: Bytes)
    ensures ([1] + (a + (b + c)) + rest)[0] == 1
    ensures ([1] + (a + (b + c)) + rest)[1..] == a + (b + (c + rest))
  {
  }

  // ----- the codec -------------------------------------------------------------------------

  function Loads(s: Bytes): Option<Json> {
    match GetJson(s)
    case Read(v, rest) => if rest == [] then Some(v) else None
    case Broken => None
  }

  function Digest(s: Bytes): string {
    seq(16, i => '0')
  }

  const UNARY := Codec(PutJson, Loads, Digest, v => "")

  /** Every document comes back from its text, and digests are hexadecimal: what the other
      modules ask of a codec is not too much. */
  lemma LawsCanBeMet()
    ensures Lawful(UNARY) && HexDigests(UNARY)
  {
    forall v ensures RoundTrips(UNARY, v) {
      JsonReadsBack(v, []);
      assert PutJson(v) + [] == PutJson(v);
    }
  }
}
