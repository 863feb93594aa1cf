/** The string operations the modelled code uses, on sequences of characters. */
module Text {

  /** ASCII white space, as str.strip() sees it. */
  predicate IsSpace(c: char) {
    c == ' ' || '\t' <= c <= '\r' || (0x1c <= c as int <= 0x1f)
  }

  function StripLeft(s: string): string {
    if s != "" && IsSpace(s[0]) then StripLeft(s[1..]) else s
  }

  function StripRight(s: string): string {
    if s != "" && IsSpace(s[|s| - 1]) then StripRight(s[..|s| - 1]) else s
  }

  function Strip(s: string): string {
    StripRight(StripLeft(s))
  }

  function LowerChar(c: char): char {
    if 'A' <= c <= 'Z' then (c as int + 32) as char else c
  }

  function Lower(s: string): (r: string)
    ensures |r| == |s| && forall i :: 0 <= i < |s| ==> r[i] == LowerChar(s[i])
  {
    if s == "" then "" else [LowerChar(s[0])] + Lower(s[1..])
  }

  /** The position of the first `sep`, or the length of `s`. */
  function IndexOf(s: string, sep: char): (k: nat)
    ensures k <= |s| && sep !in s[..k] && (k < |s| ==> s[k] == sep)
  {
    if s == "" || s[0] == sep then 0
    else
      var k := IndexOf(s[1..], sep);
      assert s[..k + 1] == [s[0]] + s[1..][..k];
      k + 1
  }

  function Before(s: string, sep: char): string {
    s[..IndexOf(s, sep)]
  }

  function After(s: string, sep: char): string {
    var k := IndexOf(s, sep);
    if k < |s| then s[k + 1..] else ""
  }

  function Split(s: string, sep: char): (pieces: seq<string>)
    ensures |pieces| >= 1
    decreases |s|
  {
    var k := IndexOf(s, sep);
    if k == |s| then [s] else [s[..k]] + Split(s[k + 1..], sep)
  }

  function Join(pieces: seq<string>, sep: char): string
    requires |pieces| >= 1
  {
    if |pieces| == 1 then pieces[0] else pieces[0] + [sep] + Join(pieces[1..], sep)
  }

  /** Splitting cuts at every separator and nowhere else. */
  lemma {:induction false} SplitJoins(s: string, sep: char)
    ensures Join(Split(s, sep), sep) == s
    ensures forall p :: p in Split(s, sep) ==> sep !in p
    decreases |s|
  {
    var k := IndexOf(s, sep);
    if k < |s| {
      SplitJoins(s[k + 1..], sep);
      assert Split(s, sep)[1..] == Split(s[k + 1..], sep);
      assert s == s[..k] + [sep] + s[k + 1..];
    }
  }

  /** Blanks at both ends go, and nothing else. */
  lemma StripsExactly(s: string, before: string, after: string, kept: string)
    requires s == before + kept + after
    requires forall i :: 0 <= i < |before| ==> before[i] in BLANKS
    requires forall i :: 0 <= i < |after| ==> after[i] in BLANKS
    requires kept != "" && kept[0] !in BLANKS && kept[|kept| - 1] !in BLANKS
    ensures Strip(s) == kept
  {
    BlanksAreSpaces();
    StripLeftDrops(before, kept + after);
    assert s == before + (kept + after);
    StripRightDrops(kept, after);
  }

  /** What follows a character that is no blank keeps it in place. */
  lemma {:induction false} StripRightStops(kept: string, after: string)
    requires kept != "" && !IsSpace(kept[|kept| - 1])
    ensures StripRight(kept + after) == kept + StripRight(after)
    decreases |after|
  {
    if after == "" {
      assert kept + after == kept && StripRight(kept) == kept;
    } else if IsSpace(after[|after| - 1]) {
      var front := after[..|after| - 1];
      assert (kept + after)[..|kept + after| - 1] == kept + front;
      StripRightStops(kept, front);
    }
  }

  /** The first separator is the one before which there is none. */
  lemma IndexOfFirst(a: string, sep: char, b: string)
    requires sep !in a
    ensures Before(a, sep) == a && After(a, sep) == ""
    ensures Before(a + [sep] + b, sep) == a && After(a + [sep] + b, sep) == b
  {
    var s := a + [sep] + b;
    var k := IndexOf(s, sep);
    assert s[|a|] == sep && s[..|a|] == a;
    assert forall i :: 0 <= i < |a| ==> s[i] == a[i];
  }

  const BLANKS := {' ', '\t', '\n', '\U{0b}', '\U{0c}', '\r', '\U{1c}', '\U{1d}', '\U{1e}', '\U{1f}'}

  lemma BlanksAreSpaces()
    ensures forall c :: IsSpace(c) <==> c in BLANKS
  {
    forall c ensures IsSpace(c) <==> c in BLANKS {
      var code := c as int;
      assert c in BLANKS ==> code in {9, 10, 11, 12, 13, 28, 29, 30, 31, 32};
    }
  }

  lemma {:induction false} StripLeftDrops(before: string, rest: string)
    requires forall i :: 0 <= i < |before| ==> IsSpace(before[i])
    requires rest != "" && !IsSpace(rest[0])
    ensures StripLeft(before + rest) == rest
  {
    if before == "" {
      assert before + rest == rest;
    } else {
      assert (before + rest)[1..] == before[1..] + rest;
      StripLeftDrops(before[1..], rest);
    }
  }

  lemma {:induction false} StripRightDrops(kept: string, after: string)
    requires forall i :: 0 <= i < |after| ==> IsSpace(after[i])
    requires kept != "" && !IsSpace(kept[|kept| - 1])
    ensures StripRight(kept + after) == kept
    decreases |after|
  {
    if after == "" {
      assert kept + after == kept;
    } else {
      var front := after[..|after| - 1];
      assert (kept + after)[..|kept + after| - 1] == kept + front;
      StripRightDrops(kept, front);
    }
  }

  /** Lower-casing makes each capital the small letter in the same place of the alphabet, and
      leaves the rest. */
  lemma LowersExactly(s: string, i: nat)
    requires i < |s|
    ensures if 'A' <= s[i] <= 'Z'
            then 'a' <= Lower(s)[i] <= 'z' && Lower(s)[i] as int - 'a' as int == s[i] as int - 'A' as int
            else Lower(s)[i] == s[i]
    ensures Lower(Lower(s)) == Lower(s)
  {
  }
}
