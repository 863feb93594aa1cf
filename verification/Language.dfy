/** Accept-Language parsing and language resolution, as in language.py
    (RFC 9110 section 12.5.4). */
module Language {
  import opened Common
  import opened Text

  /** What float() can return; a header can say "inf" and "nan". */
  datatype Weight = NegInf | Finite(r: real) | PosInf | NaN

  /** float(): None where the source catches ValueError. */
  type FloatParser = string -> Option<Weight>

  /** One kept entry: its weight, its place in the header, its tag. */
  datatype Entry = Entry(weight: Weight, position: nat, tag: string)

  /** `quality <= 0`, which is false of a NaN. */
  predicate NotPositive(w: Weight) {
    w.NegInf? || (w.Finite? && w.r <= 0.0)
  }

  predicate Positive(w: Weight) {
    w.PosInf? || (w.Finite? && w.r > 0.0)
  }

  predicate Heavier(a: Weight, b: Weight) {
    match (a, b)
    case (Finite(x), Finite(y)) => x > y
    case (PosInf, Finite(_)) => true
    case (PosInf, NegInf) => true
    case (Finite(_), NegInf) => true
    case _ => false
  }

  /** The order of the sort: heavier first, header order among equals. */
  predicate Outranks(a: Entry, b: Entry) {
    Heavier(a.weight, b.weight) || (a.weight == b.weight && a.position < b.position)
  }

  // ----- one list element ------------------------------------------------------

  function TagOf(part: string): string {
    Lower(Strip(Before(Strip(part), ';')))
  }

  predicate Listed(part: string) {
    Strip(part) != "" && TagOf(part) != "" && TagOf(part) != "*"
  }

  predicate IsQuality(param: string) {
    Strip(Before(param, '=')) == "q"
  }

  function ParamWeight(param: string, parse: FloatParser): Weight {
    var w := parse(After(param, '='));
    if w.Some? then w.value else Finite(0.0)
  }

  /** The last q parameter decides; without one the weight is 1. */
  function WeightOfParams(params: seq<string>, parse: FloatParser): Weight {
    if params == [] then Finite(1.0)
    else
      var n := |params| - 1;
      if IsQuality(params[n]) then ParamWeight(params[n], parse) else WeightOfParams(params[..n], parse)
  }

  function WeightOf(part: string, parse: FloatParser): Weight {
    WeightOfParams(Split(After(Strip(part), ';'), ';'), parse)
  }

  predicate Kept(part: string, parse: FloatParser) {
    Listed(part) && !NotPositive(WeightOf(part, parse))
  }

  /** An element that belongs in the answer: a named language of positive weight. */
  predicate Wanted(part: string, parse: FloatParser) {
    Listed(part) && Positive(WeightOf(part, parse))
  }

  ghost predicate NoNaN(parts: seq<string>, parse: FloatParser) {
    forall i :: 0 <= i < |parts| && Listed(parts[i]) ==> WeightOf(parts[i], parse) != NaN
  }

  // ----- the list ----------------------------------------------------------------

  function Entries(parts: seq<string>, parse: FloatParser): seq<Entry> {
    if parts == [] then []
    else
      var n := |parts| - 1;
      Entries(parts[..n], parse)
      + if Kept(parts[n], parse) then [Entry(WeightOf(parts[n], parse), n, TagOf(parts[n]))] else []
  }

  function Insert(e: Entry, es: seq<Entry>): seq<Entry> {
    if es == [] || Outranks(e, es[0]) then [e] + es else [es[0]] + Insert(e, es[1..])
  }

  /** sorted(): stated for weights that can be compared, see EntriesRanked. */
  function Sorted(es: seq<Entry>): seq<Entry> {
    if es == [] then [] else Insert(es[0], Sorted(es[1..]))
  }

  function Tags(es: seq<Entry>): (tags: seq<string>)
    ensures |tags| == |es| && forall i :: 0 <= i < |es| ==> tags[i] == es[i].tag
  {
    if es == [] then [] else [es[0].tag] + Tags(es[1..])
  }

  function Parts(header: Option<string>): seq<string> {
    if header.None? || header.value == "" then [] else Split(header.value, ',')
  }

  function Ranked(header: Option<string>, parse: FloatParser): seq<Entry> {
    Sorted(Entries(Parts(header), parse))
  }

  // ----- the loops of the source -------------------------------------------------

  method QualityOf(params: seq<string>, parse: FloatParser) returns (quality: Weight)
    ensures quality == WeightOfParams(params, parse)
  {
    quality := Finite(1.0);
    for i := 0 to |params|
      invariant quality == WeightOfParams(params[..i], parse)
    {
      assert params[..i + 1][..i] == params[..i];
      if Strip(Before(params[i], '=')) == "q" {
        var parsed := parse(After(params[i], '='));
        quality := if parsed.Some? then parsed.value else Finite(0.0);
      }
    }
    assert params[..|params|] == params;
  }

  method ParseAcceptLanguage(header: Option<string>, parse: FloatParser) returns (tags: seq<string>)
    ensures tags == Tags(Ranked(header, parse))
  {
    if header.None? || header.value == "" {
      return [];
    }
    var entries: seq<Entry> := [];
    var parts := Split(header.value, ',');
    for position := 0 to |parts|
      invariant entries == Entries(parts[..position], parse)
    {
      assert parts[..position + 1][..position] == parts[..position];
      var piece := Strip(parts[position]);
      if piece == "" {
        continue;
      }
      var tag := Lower(Strip(Before(piece, ';')));
      if tag == "" || tag == "*" {
        continue;
      }
      var quality := QualityOf(Split(After(piece, ';'), ';'), parse);
      if NotPositive(quality) {
        continue;
      }
      entries := entries + [Entry(quality, position, tag)];
    }
    assert parts[..|parts|] == parts;
    return Tags(Sorted(entries));
  }

  function Match(tag: string, supported: Option<set<string>>): Option<string> {
    if supported.None? then Some(tag)
    else if tag in supported.value then Some(tag)
    else if Before(tag, '-') in supported.value then Some(Before(tag, '-'))
    else None
  }

  /** A match counts only if it is not the empty string. */
  predicate Accepts(supported: Option<set<string>>, tag: string) {
    Match(tag, supported).Some? && Match(tag, supported).value != ""
  }

  function FirstMatch(tags: seq<string>, supported: Option<set<string>>): Option<string> {
    if tags == [] then None
    else if Accepts(supported, tags[0]) then Match(tags[0], supported)
    else FirstMatch(tags[1..], supported)
  }

  function Device(header: Option<string>, supported: Option<set<string>>, parse: FloatParser): Option<string> {
    FirstMatch(Tags(Ranked(header, parse)), supported)
  }

  method FromHeader(header: Option<string>, supported: Option<set<string>>, parse: FloatParser)
    returns (found: Option<string>)
    ensures found == Device(header, supported, parse)
  {
    var tags := ParseAcceptLanguage(header, parse);
    for i := 0 to |tags|
      invariant FirstMatch(tags, supported) == FirstMatch(tags[i..], supported)
    {
      var matched := Match(tags[i], supported);
      if matched.Some? && matched.value != "" {
        return matched;
      }
    }
    return None;
  }

  /** The whole rule, from plain values; an empty string counts as no choice. */
  method ResolveLanguage(appLanguage: Option<string>, useDevice: bool, header: Option<string>,
                         supported: Option<set<string>>, autoDetected: Option<string>,
                         fallback: string, parse: FloatParser)
    returns (r: string)
    ensures r == Resolve(appLanguage, useDevice, Device(header, supported, parse), supported, autoDetected, fallback)
  {
    var device := FromHeader(header, supported, parse);
    ResolveUnfolds(appLanguage, useDevice, device, supported, autoDetected, fallback);
    if Given(appLanguage) {
      if !useDevice {
        return appLanguage.value;
      }
      return if Given(device) then device.value else appLanguage.value;
    }
    if Given(device) {
      return device.value;
    }
    if Given(autoDetected) {
      var matched := Match(autoDetected.value, supported);
      if Given(matched) {
        return matched.value;
      }
    }
    return fallback;
  }

  predicate Given(language: Option<string>) {
    language.Some? && language.value != ""
  }

  /** The four rules of the documentation as one table of candidates, best first. */
  function Candidates(appLanguage: Option<string>, useDevice: bool, device: Option<string>,
                      supported: Option<set<string>>, autoDetected: Option<string>): seq<Option<string>>
  {
    if Given(appLanguage) then
      if useDevice then [device, appLanguage] else [appLanguage]
    else if Given(autoDetected) then [device, Match(autoDetected.value, supported)]
    else [device]
  }

  function FirstGiven(candidates: seq<Option<string>>, fallback: string): string {
    if candidates == [] then fallback
    else if Given(candidates[0]) then candidates[0].value
    else FirstGiven(candidates[1..], fallback)
  }

  function Resolve(appLanguage: Option<string>, useDevice: bool, device: Option<string>,
                   supported: Option<set<string>>, autoDetected: Option<string>, fallback: string): string
  {
    FirstGiven(Candidates(appLanguage, useDevice, device, supported, autoDetected), fallback)
  }

  lemma ResolveUnfolds(appLanguage: Option<string>, useDevice: bool, device: Option<string>,
                       supported: Option<set<string>>, autoDetected: Option<string>, fallback: string)
    ensures Resolve(appLanguage, useDevice, device, supported, autoDetected, fallback) ==
            var second := if Given(appLanguage) then appLanguage
                          else if Given(autoDetected) then Match(autoDetected.value, supported) else None;
            if Given(device) && (Given(appLanguage) ==> useDevice) then device.value
            else if Given(second) then second.value else fallback
  {
    var candidates := Candidates(appLanguage, useDevice, device, supported, autoDetected);
    if |candidates| == 2 {
      assert candidates[1..] == [candidates[1]];
    }
    forall c: Option<string>
      ensures FirstGiven([c], fallback) == if Given(c) then c.value else fallback
    {
      assert [c][1..] == [];
    }
  }

  // ----- what the list holds -------------------------------------------------------

  function EntryOf(parts: seq<string>, i: nat, parse: FloatParser): Entry
    requires i < |parts|
  {
    Entry(WeightOf(parts[i], parse), i, TagOf(parts[i]))
  }

  /** `es` holds the entries of the kept elements and nothing else. */
  ghost predicate HoldsTheKept(es: seq<Entry>, parts: seq<string>, parse: FloatParser) {
    && (forall e :: e in es ==>
          e.position < |parts| && Kept(parts[e.position], parse) && e == EntryOf(parts, e.position, parse))
    && (forall i: nat :: i < |parts| && Kept(parts[i], parse) ==> EntryOf(parts, i, parse) in es)
  }

  ghost predicate Increasing(es: seq<Entry>) {
    forall i, j :: 0 <= i < j < |es| ==> es[i].position < es[j].position
  }

  /** The same of any numbered entries and any choice among them. */
  ghost predicate Collects(es: seq<Entry>, all: seq<Entry>, chosen: seq<bool>)
    requires |chosen| == |all|
  {
    && (forall e :: e in es ==> e.position < |all| && chosen[e.position] && e == all[e.position])
    && (forall i: nat :: i < |all| && chosen[i] ==> all[i] in es)
  }

  lemma OneMoreCollected(es: seq<Entry>, all: seq<Entry>, chosen: seq<bool>)
    requires |chosen| == |all| > 0 && forall i :: 0 <= i < |all| ==> all[i].position == i
    requires Collects(es, all[..|all| - 1], chosen[..|all| - 1]) && Increasing(es)
    ensures var now := es + if chosen[|all| - 1] then [all[|all| - 1]] else [];
            Collects(now, all, chosen) && Increasing(now)
  {
    var n := |all| - 1;
    var now := es + if chosen[n] then [all[n]] else [];
    forall i: nat | i < |all| && chosen[i] ensures all[i] in now {
      if i < n {
        assert all[..n][i] in es;
      }
    }
    forall i, j | 0 <= i < j < |now| ensures now[i].position < now[j].position {
      assert now[i] in es;
    }
  }

  function AllEntries(parts: seq<string>, parse: FloatParser): seq<Entry> {
    seq(|parts|, i requires 0 <= i < |parts| => EntryOf(parts, i, parse))
  }

  function AllKept(parts: seq<string>, parse: FloatParser): seq<bool> {
    seq(|parts|, i requires 0 <= i < |parts| => Kept(parts[i], parse))
  }

  lemma {:induction false} EntriesAreCollected(parts: seq<string>, parse: FloatParser)
    ensures Collects(Entries(parts, parse), AllEntries(parts, parse), AllKept(parts, parse))
    ensures Increasing(Entries(parts, parse))
    decreases |parts|
  {
    if parts != [] {
      var n := |parts| - 1;
      EntriesAreCollected(parts[..n], parse);
      assert AllEntries(parts, parse)[..n] == AllEntries(parts[..n], parse);
      assert AllKept(parts, parse)[..n] == AllKept(parts[..n], parse);
      OneMoreCollected(Entries(parts[..n], parse), AllEntries(parts, parse), AllKept(parts, parse));
    }
  }

  lemma EntriesAreTheKept(parts: seq<string>, parse: FloatParser)
    ensures HoldsTheKept(Entries(parts, parse), parts, parse)
    ensures Increasing(Entries(parts, parse))
  {
    EntriesAreCollected(parts, parse);
    forall i: nat | i < |parts| && Kept(parts[i], parse) ensures EntryOf(parts, i, parse) in Entries(parts, parse) {
      assert AllKept(parts, parse)[i] && AllEntries(parts, parse)[i] in Entries(parts, parse);
    }
  }

  ghost predicate InOrder(es: seq<Entry>) {
    forall i, j :: 0 <= i < j < |es| ==> Outranks(es[i], es[j])
  }

  ghost predicate Comparable(es: seq<Entry>) {
    && (forall i :: 0 <= i < |es| ==> es[i].weight != NaN)
    && (forall i, j :: 0 <= i < j < |es| ==> es[i].position != es[j].position)
  }

  lemma {:induction false} InsertPermutes(e: Entry, es: seq<Entry>)
    ensures multiset(Insert(e, es)) == multiset([e] + es)
  {
    if es != [] && !Outranks(e, es[0]) {
      InsertPermutes(e, es[1..]);
      assert [e] + es == [e, es[0]] + es[1..];
      assert multiset(Insert(e, es)) == multiset([es[0]]) + multiset([e] + es[1..]);
    }
  }

  lemma {:induction false} SortedPermutes(es: seq<Entry>)
    ensures multiset(Sorted(es)) == multiset(es)
  {
    if es != [] {
      SortedPermutes(es[1..]);
      InsertPermutes(es[0], Sorted(es[1..]));
      assert es == [es[0]] + es[1..];
      assert multiset([es[0]] + Sorted(es[1..])) == multiset([es[0]]) + multiset(Sorted(es[1..]));
    }
  }

  lemma {:induction false} InsertKeepsOrder(e: Entry, es: seq<Entry>)
    requires InOrder(es) && e.weight != NaN
    requires forall x :: x in es ==> x.weight != NaN && x.position != e.position
    ensures InOrder(Insert(e, es))
  {
    if es != [] && !Outranks(e, es[0]) {
      InsertKeepsOrder(e, es[1..]);
      var rest := Insert(e, es[1..]);
      InsertHolds(e, es[1..]);
      forall j | 0 <= j < |rest| ensures Outranks(es[0], rest[j]) {
        assert rest[j] == e || rest[j] in es[1..];
      }
      HeadFirst(es[0], rest);
    }
  }

  lemma InsertHolds(e: Entry, es: seq<Entry>)
    ensures forall x :: x in Insert(e, es) ==> x == e || x in es
  {
    InsertPermutes(e, es);
    forall x | x in Insert(e, es) ensures x == e || x in es {
      assert x in multiset(Insert(e, es));
      assert x in [e] + es;
    }
  }

  lemma HeadFirst(e: Entry, es: seq<Entry>)
    requires InOrder(es) && forall j :: 0 <= j < |es| ==> Outranks(e, es[j])
    ensures InOrder([e] + es)
  {
  }

  lemma {:induction false} SortedInOrder(es: seq<Entry>)
    requires Comparable(es)
    ensures InOrder(Sorted(es))
  {
    if es != [] {
      SortedInOrder(es[1..]);
      SortedPermutes(es[1..]);
      forall x | x in Sorted(es[1..]) ensures x.weight != NaN && x.position != es[0].position {
        assert x in multiset(Sorted(es[1..]));
        assert x in es[1..];
      }
      InsertKeepsOrder(es[0], Sorted(es[1..]));
    }
  }

  /** The list is exactly the entries of the kept elements, each once; when no
      weight is NaN it is in non-increasing weight, header order on ties, and the
      kept elements are exactly the wanted ones. */
  lemma RankedIsTheWanted(header: Option<string>, parse: FloatParser)
    ensures HoldsTheKept(Ranked(header, parse), Parts(header), parse)
    ensures forall e :: e in Ranked(header, parse) ==> multiset(Ranked(header, parse))[e] == 1
    ensures NoNaN(Parts(header), parse) ==> InOrder(Ranked(header, parse))
    ensures NoNaN(Parts(header), parse) ==>
              forall i :: 0 <= i < |Parts(header)| ==>
                (Kept(Parts(header)[i], parse) <==> Wanted(Parts(header)[i], parse))
  {
    RankedFrom(Parts(header), parse);
  }

  lemma RankedFrom(parts: seq<string>, parse: FloatParser)
    ensures var es := Sorted(Entries(parts, parse));
            && HoldsTheKept(es, parts, parse)
            && (forall e :: e in es ==> multiset(es)[e] == 1)
            && (NoNaN(parts, parse) ==> InOrder(es))
  {
    var es := Entries(parts, parse);
    EntriesAreTheKept(parts, parse);
    SortedSameElements(es);
    EntriesOccurOnce(es);
    if NoNaN(parts, parse) {
      forall i | 0 <= i < |es| ensures es[i].weight != NaN {
        assert es[i] in es;
      }
      SortedInOrder(es);
    }
  }

  lemma SortedSameElements(es: seq<Entry>)
    ensures multiset(Sorted(es)) == multiset(es)
    ensures forall e :: e in Sorted(es) <==> e in es
  {
    SortedPermutes(es);
    forall e ensures e in Sorted(es) <==> e in es {
      assert e in multiset(Sorted(es)) <==> e in multiset(es);
    }
  }

  lemma EntriesOccurOnce(es: seq<Entry>)
    requires Increasing(es)
    ensures forall e :: e in es ==> multiset(es)[e] == 1
  {
    forall e | e in es ensures multiset(es)[e] == 1 {
      OccursOnce(es, e);
    }
  }

  lemma {:induction false} OccursOnce(es: seq<Entry>, e: Entry)
    requires Increasing(es) && e in es
    ensures multiset(es)[e] == 1
  {
    var rest := es[1..];
    assert es == [es[0]] + rest;
    if e == es[0] {
      assert e !in rest;
    } else {
      OccursOnce(rest, e);
    }
  }

  /** The documented rule, "positive weight only", is kept exactly for the headers
      in which no named element weighs NaN: `quality <= 0` is false of a NaN. */
  lemma PositiveOnlyExactly(parts: seq<string>, parse: FloatParser)
    ensures (forall i :: 0 <= i < |parts| ==> (Kept(parts[i], parse) <==> Wanted(parts[i], parse)))
            <==> NoNaN(parts, parse)
  {
    forall i | 0 <= i < |parts| ensures
      (Kept(parts[i], parse) <==> Wanted(parts[i], parse)) <==> (Listed(parts[i]) ==> WeightOf(parts[i], parse) != NaN)
    {
    }
  }

  /** "de;q=nan" is listed although NaN is not a positive weight. */
  lemma NaNIsListed(parse: FloatParser)
    requires parse("nan") == Some(NaN)
    ensures Kept("de;q=nan", parse) && !Wanted("de;q=nan", parse)
  {
    var part := "de;q=nan";
    assert Strip(part) == part;
    assert IndexOf(part, ';') == 2 by {
      assert part[0] == 'd' && part[1..][0] == 'e' && part[1..][1..][0] == ';';
    }
    assert Before(part, ';') == "de";
    assert Strip("de") == "de";
    assert TagOf(part) == Lower("de");
    assert After(part, ';') == "q=nan";
    assert 'n' != ';' && IndexOf("q=nan", ';') == 5 by {
      assert ';' !in "q=nan";
    }
    assert Split("q=nan", ';') == ["q=nan"];
    assert IndexOf("q=nan", '=') == 1 by {
      assert "q=nan"[0] == 'q' && "q=nan"[1..][0] == '=';
    }
    assert Before("q=nan", '=') == "q" && After("q=nan", '=') == "nan";
    assert Strip("q") == "q";
    assert IsQuality("q=nan");
  }

  // ----- what one element says ----------------------------------------------------

  predicate Blank(s: string) {
    forall i :: 0 <= i < |s| ==> s[i] in BLANKS
  }

  /** Text without blanks at its ends. */
  predicate Word(s: string) {
    s != "" && s[0] !in BLANKS && s[|s| - 1] !in BLANKS
  }

  /** The element says this tag, with blanks around it and perhaps parameters after it. */
  predicate SaysTag(part: string, before: string, tag: string, after: string, rest: string) {
    && Blank(before) && Blank(after) && Word(tag) && ';' !in tag
    && part == before + (tag + (after + rest)) && (rest == "" || rest[0] == ';')
  }

  /** An element names its tag in small letters, whatever blanks and parameters there are; and
      it is listed exactly when that is not "*". */
  lemma TagIsSpelled(part: string, before: string, tag: string, after: string, rest: string)
    requires SaysTag(part, before, tag, after, rest)
    ensures TagOf(part) == Lower(tag) && (Listed(part) <==> tag != "*")
    ensures rest != "" ==> After(Strip(part), ';') == StripRight(rest[1..])
  {
    if rest == "" {
      BareTag(part, before, tag, after);
    } else {
      TagWithParams(part, before, tag, after, rest);
    }
    LowerOfTag(tag);
  }

  lemma BareTag(part: string, before: string, tag: string, after: string)
    requires SaysTag(part, before, tag, after, "")
    ensures Strip(part) == tag && Strip(Before(Strip(part), ';')) == tag
  {
    assert part == before + tag + after;
    StripsExactly(part, before, after, tag);
    IndexOfFirst(tag, ';', "");
    StripsExactly(tag, "", "", tag);
  }

  lemma TagWithParams(part: string, before: string, tag: string, after: string, rest: string)
    requires SaysTag(part, before, tag, after, rest) && rest != ""
    ensures Strip(part) == (tag + after) + [';'] + StripRight(rest[1..])
    ensures Strip(Before(Strip(part), ';')) == tag && After(Strip(part), ';') == StripRight(rest[1..])
  {
    BlanksAreSpaces();
    StripLeftDrops(before, tag + (after + rest));
    var head := (tag + after) + [';'];
    assert tag + (after + rest) == head + rest[1..];
    StripRightStops(head, rest[1..]);
    assert ';' !in after && ';' !in tag + after;
    IndexOfFirst(tag + after, ';', StripRight(rest[1..]));
    assert tag + after == "" + tag + after;
    StripsExactly(tag + after, "", after, tag);
  }

  lemma LowerOfTag(tag: string)
    requires tag != ""
    ensures Lower(tag) != "" && (Lower(tag) == "*" <==> tag == "*")
  {
    if Lower(tag) == "*" {
      LowersExactly(tag, 0);
      assert tag == [tag[0]];
    }
    if tag == "*" {
      LowersExactly(tag, 0);
      assert Lower(tag) == [Lower(tag)[0]];
    }
  }

  /** The parameter is a q with this value. */
  predicate SaysQuality(param: string, before: string, after: string, value: string) {
    Blank(before) && Blank(after) && param == before + ("q" + (after + ("=" + value)))
  }

  lemma QualityIsSpelled(param: string, before: string, after: string, value: string)
    requires SaysQuality(param, before, after, value)
    ensures IsQuality(param) && After(param, '=') == value
  {
    var name := before + "q" + after;
    assert param == name + ['='] + value;
    assert '=' !in name;
    IndexOfFirst(name, '=', value);
    StripsExactly(name, before, after, "q");
  }

  /** The last q decides: its number, or 0 when it is none; and without one the weight is 1. */
  lemma {:induction false} LastQualityDecides(params: seq<string>, i: nat, before: string, after: string, value: string,
                                              parse: FloatParser)
    requires i < |params| && SaysQuality(params[i], before, after, value)
    requires forall j :: i < j < |params| ==> !IsQuality(params[j])
    ensures WeightOfParams(params, parse) ==
            match parse(value) { case Some(w) => w case None => Finite(0.0) }
    ensures WeightOfParams([], parse) == Finite(1.0)
    decreases |params|
  {
    if i == |params| - 1 {
      QualityIsSpelled(params[i], before, after, value);
    } else {
      LastQualityDecides(params[..|params| - 1], i, before, after, value, parse);
    }
  }

  lemma {:induction false} NoQualityIsOne(params: seq<string>, parse: FloatParser)
    requires forall j :: 0 <= j < |params| ==> !IsQuality(params[j])
    ensures WeightOfParams(params, parse) == Finite(1.0)
  {
    if params != [] {
      NoQualityIsOne(params[..|params| - 1], parse);
    }
  }

  /** In numbers: the weights go down, and among equal ones the header's order stays. */
  lemma WeightsGoDown(header: Option<string>, parse: FloatParser, i: nat, j: nat, x: real, y: real)
    requires NoNaN(Parts(header), parse) && i < j < |Ranked(header, parse)|
    requires Ranked(header, parse)[i].weight == Finite(x) && Ranked(header, parse)[j].weight == Finite(y)
    ensures x > y || (x == y && Ranked(header, parse)[i].position < Ranked(header, parse)[j].position)
  {
    var es := Ranked(header, parse);
    RankedIsTheWanted(header, parse);
    assert Outranks(es[i], es[j]);
  }

  // ----- which language is chosen ----------------------------------------------------

  ghost predicate FirstAccepted(tags: seq<string>, i: int, supported: Option<set<string>>, m: string) {
    && 0 <= i < |tags| && Accepts(supported, tags[i]) && Match(tags[i], supported) == Some(m)
    && forall j :: 0 <= j < i ==> !Accepts(supported, tags[j])
  }

  lemma {:induction false} FirstMatchIsFirst(tags: seq<string>, supported: Option<set<string>>)
    ensures match FirstMatch(tags, supported)
            case None => forall i :: 0 <= i < |tags| ==> !Accepts(supported, tags[i])
            case Some(m) => m != "" && exists i :: FirstAccepted(tags, i, supported, m)
  {
    if tags != [] && !Accepts(supported, tags[0]) {
      FirstMatchIsFirst(tags[1..], supported);
      if FirstMatch(tags, supported).Some? {
        var m := FirstMatch(tags, supported).value;
        var i :| FirstAccepted(tags[1..], i, supported, m);
        assert tags[1..][i] == tags[i + 1];
        forall j | 0 <= j < i + 1 ensures !Accepts(supported, tags[j]) {
          if j > 0 {
            assert tags[j] == tags[1..][j - 1];
          }
        }
        assert FirstAccepted(tags, i + 1, supported, m);
      } else {
        forall i | 0 <= i < |tags| ensures !Accepts(supported, tags[i]) {
          if i > 0 {
            assert tags[i] == tags[1..][i - 1];
          }
        }
      }
    } else if tags != [] {
      assert FirstAccepted(tags, 0, supported, Match(tags[0], supported).value);
    }
  }

  /** Element `i` is the best accepted one: wanted, accepted, and every other
      wanted and accepted element weighs less, or the same and comes later. */
  ghost predicate BestAccepted(parts: seq<string>, i: nat, supported: Option<set<string>>, parse: FloatParser) {
    && i < |parts| && Wanted(parts[i], parse) && Accepts(supported, TagOf(parts[i]))
    && forall j :: 0 <= j < |parts| && j != i && Wanted(parts[j], parse) && Accepts(supported, TagOf(parts[j])) ==>
         Heavier(WeightOf(parts[i], parse), WeightOf(parts[j], parse))
         || (WeightOf(parts[i], parse) == WeightOf(parts[j], parse) && i < j)
  }

  lemma RankOf(header: Option<string>, i: nat, parse: FloatParser) returns (k: nat)
    requires NoNaN(Parts(header), parse) && i < |Parts(header)| && Wanted(Parts(header)[i], parse)
    ensures var es, part := Ranked(header, parse), Parts(header)[i];
            k < |es| && es[k] == Entry(WeightOf(part, parse), i, TagOf(part)) && Tags(es)[k] == TagOf(part)
  {
    var es, part := Ranked(header, parse), Parts(header)[i];
    RankedIsTheWanted(header, parse);
    var e := Entry(WeightOf(part, parse), i, TagOf(part));
    assert e in es;
    k :| 0 <= k < |es| && es[k] == e;
  }

  lemma FirstAcceptedIsBest(header: Option<string>, k: nat, supported: Option<set<string>>, m: string,
                            parse: FloatParser)
    requires NoNaN(Parts(header), parse)
    requires FirstAccepted(Tags(Ranked(header, parse)), k, supported, m)
    ensures var i := Ranked(header, parse)[k].position;
            BestAccepted(Parts(header), i, supported, parse) && Match(TagOf(Parts(header)[i]), supported) == Some(m)
  {
    var parts, es := Parts(header), Ranked(header, parse);
    RankedIsTheWanted(header, parse);
    assert es[k] in es;
    var i := es[k].position;
    forall j: nat | j < |parts| && j != i && Wanted(parts[j], parse) && Accepts(supported, TagOf(parts[j]))
      ensures Outranks(es[k], Entry(WeightOf(parts[j], parse), j, TagOf(parts[j])))
    {
      var q := RankOf(header, j, parse);
      assert !(q < k);
    }
  }

  /** The device language is the match of the best accepted element, and there is
      none exactly when no wanted element is accepted. */
  lemma DeviceIsBest(header: Option<string>, supported: Option<set<string>>, parse: FloatParser)
    requires NoNaN(Parts(header), parse)
    ensures var parts := Parts(header);
            match Device(header, supported, parse)
            case None =>
              forall i :: 0 <= i < |parts| && Wanted(parts[i], parse) ==> !Accepts(supported, TagOf(parts[i]))
            case Some(m) => exists i: nat ::
              BestAccepted(parts, i, supported, parse) && Match(TagOf(parts[i]), supported) == Some(m)
  {
    var parts, tags := Parts(header), Tags(Ranked(header, parse));
    FirstMatchIsFirst(tags, supported);
    var device := Device(header, supported, parse);
    if device == None {
      forall i | 0 <= i < |parts| && Wanted(parts[i], parse) ensures !Accepts(supported, TagOf(parts[i])) {
        var k := RankOf(header, i, parse);
        assert !Accepts(supported, tags[k]);
      }
    } else {
      var k :| FirstAccepted(tags, k, supported, device.value);
      FirstAcceptedIsBest(header, k, supported, device.value, parse);
    }
  }

  /** The full tag is tried before its base, so a set that tells regions apart keeps the
      difference; without a set every tag is taken as it is. */
  lemma MatchesExactly(tag: string, supported: set<string>, form: string)
    ensures Match(tag, None) == Some(tag)
    ensures Match(tag, Some(supported)) == Some(form)
            <==> form in supported && (form == tag || (tag !in supported && form == Before(tag, '-')))
    ensures tag in supported && tag != "" ==> FirstMatch([tag], Some(supported)) == Some(tag)
  {
  }

  /** One language in the header: the device language is its tag, else its base, else none. */
  lemma OneTagDevice(header: string, supported: set<string>, parse: FloatParser)
    requires |Split(header, ',')| == 1 && header != "" && Wanted(header, parse) && "" !in supported
    ensures var tag := TagOf(header);
            Device(Some(header), Some(supported), parse) ==
            if tag in supported then Some(tag)
            else if Before(tag, '-') in supported then Some(Before(tag, '-')) else None
  {
    SplitJoins(header, ',');
    var pieces := Split(header, ',');
    assert pieces == [pieces[0]] && pieces[0] == header;
    assert Parts(Some(header)) == [header];
    assert [header][..0] == [];
    var e := Entry(WeightOf(header, parse), 0, TagOf(header));
    assert Entries([header], parse) == [e];
    assert [e][1..] == [] && Sorted([e]) == [e];
    assert Tags([e]) == [TagOf(header)];
    var tags := [TagOf(header)];
    assert tags[1..] == [] && FirstMatch(tags[1..], Some(supported)) == None;
    assert Ranked(Some(header), parse) == [e] && Tags([e]) == tags;
  }

  /** The four rules: an explicit choice that the device must not override; one it may; the
      device on "auto"; and with nothing usable the last language seen, else the default. */
  lemma RulesExactly(choice: string, useDevice: bool, device: Option<string>, supported: Option<set<string>>,
                     seen: Option<string>, fallback: string)
    requires device.Some? ==> device.value != ""
    ensures choice != "" && !useDevice ==>
              Resolve(Some(choice), useDevice, device, supported, seen, fallback) == choice
    ensures choice != "" && useDevice ==>
              Resolve(Some(choice), useDevice, device, supported, seen, fallback)
              == if device.Some? then device.value else choice
    ensures forall none :: none in {None, Some("")} ==>
              Resolve(none, useDevice, device, supported, seen, fallback) ==
              if device.Some? then device.value
              else if seen.Some? && seen.value != "" && Accepts(supported, seen.value) then
                Match(seen.value, supported).value
              else fallback
  {
    ResolveUnfolds(Some(choice), useDevice, device, supported, seen, fallback);
    ResolveUnfolds(None, useDevice, device, supported, seen, fallback);
    ResolveUnfolds(Some(""), useDevice, device, supported, seen, fallback);
  }

  /** A user on "auto" gets a language the supported set holds, or the fallback. */
  lemma AutoIsSupported(useDevice: bool, header: Option<string>, supported: set<string>,
                        autoDetected: Option<string>, fallback: string, parse: FloatParser)
    ensures var device := Device(header, Some(supported), parse);
            var r := Resolve(None, useDevice, device, Some(supported), autoDetected, fallback);
            r in supported || r == fallback
  {
    var device := Device(header, Some(supported), parse);
    FirstMatchIsFirst(Tags(Ranked(header, parse)), Some(supported));
    ResolveUnfolds(None, useDevice, device, Some(supported), autoDetected, fallback);
  }
}
