/** Frames that travel by reference, comm/overflow.py and _decode_reply of comm/nats.py:
    object keys, the checks a reader makes, and the two ways a value can take. */
module Overflow {
  import opened Common

  newtype Byte = b: int | 0 <= b < 256

  type Bytes = seq<Byte>

  /** json.dumps, json.loads (None where it raises), sha256().hexdigest() and str(). */
  datatype Codec = Codec(dumps: Json -> Bytes, loads: Bytes -> Option<Json>, sha: Bytes -> string, str: Json -> string)

  /** The value comes back from its own text. */
  predicate RoundTrips(c: Codec, v: Json) {
    c.dumps(v) != [] && c.loads(c.dumps(v)) == Some(v)
  }

  ghost predicate Lawful(c: Codec) {
    forall v :: RoundTrips(c, v)
  }

  /** Two byte strings the digest does not tell apart. */
  predicate Collide(c: Codec, a: Bytes, b: Bytes) {
    a != b && c.sha(a) == c.sha(b)
  }

  /** Digests are written in hexadecimal, 16 digits or more. */
  ghost predicate HexDigests(c: Codec) {
    forall a :: |c.sha(a)| >= 16 && Hex(c.sha(a)[..16], 16)
  }

  /** STAPEL_COMM["LARGE_REPLY"]: the configured store's name, if any, and the prefix. */
  datatype Config = Config(store: Option<string>, prefix: string, inlineMax: nat)

  const DEFAULT_PREFIX := "stapel/comm/overflow"

  const MAX_KEY_LENGTH := 1024

  const MAX_REPLY_KEY_LENGTH := 200

  // ----- the prefix and the threshold --------------------------------------------------

  function DropLeft(s: string): string {
    if s != "" && s[0] == '/' then DropLeft(s[1..]) else s
  }

  function DropRight(s: string): string {
    if s != "" && s[|s| - 1] == '/' then DropRight(s[..|s| - 1]) else s
  }

  function PrefixOf(configured: string): string {
    DropRight(DropLeft(if configured == "" then DEFAULT_PREFIX else configured))
  }

  lemma {:induction false} DropLeftTrims(s: string)
    ensures DropLeft(s) != "" ==> DropLeft(s)[0] != '/'
  {
    if s != "" && s[0] == '/' {
      DropLeftTrims(s[1..]);
    }
  }

  lemma {:induction false} DropRightTrims(s: string)
    ensures DropRight(s) != "" ==> DropRight(s)[|DropRight(s)| - 1] != '/'
    ensures DropRight(s) <= s
    decreases |s|
  {
    if s != "" && s[|s| - 1] == '/' {
      DropRightTrims(s[..|s| - 1]);
    }
  }

  predicate Trimmed(prefix: string) {
    prefix != "" ==> prefix[0] != '/' && prefix[|prefix| - 1] != '/'
  }

  lemma PrefixIsTrimmed(configured: string)
    ensures Trimmed(PrefixOf(configured))
  {
    var s := if configured == "" then DEFAULT_PREFIX else configured;
    DropLeftTrims(s);
    DropRightTrims(DropLeft(s));
  }

  function Threshold(configured: int, maxPayload: nat): int {
    if maxPayload != 0 && (configured == 0 || configured > maxPayload) then maxPayload else configured
  }

  /** A frame leaves the wire exactly when a limit that is set, the deployment's or the
      broker's, is exceeded. */
  lemma OversizedExactly(configured: int, maxPayload: nat, size: nat)
    ensures (Threshold(configured, maxPayload) != 0 && size > Threshold(configured, maxPayload))
            <==> (configured != 0 && size > configured) || (maxPayload != 0 && size > maxPayload)
  {
  }

  // ----- keys --------------------------------------------------------------------------

  predicate SafeChar(c: char) {
    'A' <= c <= 'Z' || 'a' <= c <= 'z' || '0' <= c <= '9' || c == '.' || c == '_' || c == '-'
  }

  predicate SafeText(s: string) {
    forall i :: 0 <= i < |s| ==> SafeChar(s[i])
  }

  function Sanitise(s: string): (r: string)
    ensures |r| == |s| && forall i :: 0 <= i < |s| ==> r[i] == if SafeChar(s[i]) then s[i] else '_'
  {
    seq(|s|, i requires 0 <= i < |s| => if SafeChar(s[i]) then s[i] else '_')
  }

  function Cut(s: string, n: nat): string {
    if |s| <= n then s else s[..n]
  }

  function SafeFunction(function_: string): string {
    Cut(Sanitise(if function_ == "" then "unknown" else function_), 80)
  }

  function SafeReplyKey(replyKey: string): string {
    Cut(Sanitise(replyKey), MAX_REPLY_KEY_LENGTH)
  }

  datatype Direction = Reply | Request | Checkpoint

  function Segment(d: Direction): string {
    match d
    case Reply => "reply"
    case Request => "request"
    case Checkpoint => "checkpoint"
  }

  /** _new_key; `hex` are the 32 digits of the random id. */
  function NewKey(prefix: string, function_: string, d: Direction, hex: string): string {
    prefix + ("/" + (Segment(d) + ("/" + (SafeFunction(function_) + ("/" + (hex + ".json"))))))
  }

  function DurableKey(prefix: string, function_: string, replyKey: string): string {
    prefix + ("/" + ("durable-reply" + ("/" + (SafeFunction(function_) + ("/" + (SafeReplyKey(replyKey) + ".json"))))))
  }

  predicate DotDot(s: string) {
    exists i :: 0 <= i < |s| - 1 && Dots(s, i)
  }

  predicate Dots(s: string, i: nat)
    requires i < |s| - 1
  {
    s[i] == '.' && s[i + 1] == '.'
  }

  predicate Scheme(s: string) {
    exists i :: 0 <= i < |s| - 2 && Mark(s, i)
  }

  predicate Mark(s: string, i: nat)
    requires i < |s| - 2
  {
    s[i] == ':' && s[i + 1] == '/' && s[i + 2] == '/'
  }

  /** _checked_key */
  predicate CheckedKey(prefix: string, key: string) {
    && key != "" && |key| <= MAX_KEY_LENGTH && key[0] != '/'
    && !DotDot(key) && !Scheme(key) && '\\' !in key
    && prefix + "/" <= key
  }

  /** A prefix no key under which is refused for the prefix's sake. */
  predicate CleanPrefix(prefix: string) {
    prefix != "" && !DotDot(prefix) && !Scheme(prefix) && '\\' !in prefix
  }

  lemma DotsOfJoin(a: string, b: string)
    ensures DotDot(a + ("/" + b)) <==> DotDot(a) || DotDot(b)
  {
    var s := a + ("/" + b);
    if DotDot(a) {
      var i :| 0 <= i < |a| - 1 && Dots(a, i);
      assert Dots(s, i);
    }
    if DotDot(b) {
      var i :| 0 <= i < |b| - 1 && Dots(b, i);
      assert Dots(s, |a| + 1 + i);
    }
    if DotDot(s) {
      var i :| 0 <= i < |s| - 1 && Dots(s, i);
      if i + 1 < |a| {
        assert Dots(a, i);
      } else {
        assert i > |a| && Dots(b, i - |a| - 1);
      }
    }
  }

  lemma SanitisedDots(s: string, n: nat)
    ensures DotDot(Cut(Sanitise(s), n)) <==> DotDot(Cut(s, n))
  {
    var r, t := Cut(Sanitise(s), n), Cut(s, n);
    assert forall i :: 0 <= i < |r| - 1 ==> (Dots(r, i) <==> Dots(t, i));
  }

  predicate PathText(s: string) {
    forall i :: 0 <= i < |s| ==> SafeChar(s[i]) || s[i] == '/'
  }

  /** Under a trimmed prefix the rest of a key adds neither a scheme nor a backslash. */
  lemma SchemeOfKey(prefix: string, rest: string)
    requires Trimmed(prefix) && PathText(rest) && rest != "" && rest[0] != '/'
    ensures Scheme(prefix + ("/" + rest)) <==> Scheme(prefix)
    ensures '\\' in prefix + ("/" + rest) <==> '\\' in prefix
  {
    var s := prefix + ("/" + rest);
    if Scheme(prefix) {
      var i :| 0 <= i < |prefix| - 2 && Mark(prefix, i);
      assert Mark(s, i);
    }
    if Scheme(s) {
      assert s[|prefix| + 1] == rest[0];
      var i :| 0 <= i < |s| - 2 && Mark(s, i);
      assert i + 2 < |prefix|;
      assert Mark(prefix, i);
    }
  }

  predicate Hex(s: string, n: nat) {
    |s| == n && forall i :: 0 <= i < n ==> '0' <= s[i] <= '9' || 'a' <= s[i] <= 'f'
  }

  function Shown(function_: string): string {
    Cut(if function_ == "" then "unknown" else function_, 80)
  }

  lemma NoDotsInHex(hex: string)
    requires Hex(hex, 32)
    ensures !DotDot(hex + ".json")
  {
    var s := hex + ".json";
    forall i | 0 <= i < |s| - 1 ensures !Dots(s, i) {
    }
  }

  lemma NoDotsInSegment(d: Direction)
    ensures !DotDot(Segment(d)) && PathText(Segment(d)) && Segment(d) != "" && Segment(d)[0] != '/'
  {
  }

  /** Every minted key passes the reader's check, exactly when the prefix is clean, the key
      is not too long and the first 80 characters of the function name hold no "..". */
  lemma MintedKeyReadableExactly(prefix: string, function_: string, d: Direction, hex: string)
    requires Trimmed(prefix) && Hex(hex, 32)
    ensures CheckedKey(prefix, NewKey(prefix, function_, d, hex))
            <==> && CleanPrefix(prefix) && !DotDot(Shown(function_))
                 && |NewKey(prefix, function_, d, hex)| <= 1024
  {
    var safe, tail := SafeFunction(function_), hex + ".json";
    var rest := Segment(d) + ("/" + (safe + ("/" + tail)));
    NoDotsInSegment(d);
    NoDotsInHex(hex);
    DotsOfJoin(safe, tail);
    DotsOfJoin(Segment(d), safe + ("/" + tail));
    SanitisedDots(if function_ == "" then "unknown" else function_, 80);
    PathTextOfJoin(safe, tail);
    PathTextOfJoin(Segment(d), safe + ("/" + tail));
    KeyReadableExactly(prefix, rest);
  }

  lemma PathTextOfJoin(a: string, b: string)
    requires PathText(a) && PathText(b)
    ensures PathText(a + ("/" + b))
  {
  }

  lemma KeyReadableExactly(prefix: string, rest: string)
    requires Trimmed(prefix) && PathText(rest) && rest != "" && rest[0] != '/'
    ensures CheckedKey(prefix, prefix + ("/" + rest))
            <==> CleanPrefix(prefix) && !DotDot(rest) && |prefix| + 1 + |rest| <= 1024
  {
    DotsOfJoin(prefix, rest);
    SchemeOfKey(prefix, rest);
    UnderPrefix(prefix, rest);
  }

  /** No key outside the prefix is accepted: not one that only begins with the same letters,
      nor an absolute one; and none that climbs, names a scheme or holds a backslash. */
  lemma OutsideIsRefused(prefix: string, key: string, a: string, b: string)
    ensures CheckedKey(prefix, key) ==> exists rest :: key == prefix + "/" + rest
    ensures key == a + ".." + b || key == a + "://" + b || key == a + "\\" + b || key == "/" + b || key == "" ==>
              !CheckedKey(prefix, key)
    ensures |key| > 1024 ==> !CheckedKey(prefix, key)
  {
    if CheckedKey(prefix, key) {
      assert key == prefix + "/" + key[|prefix| + 1..];
    }
    if key == a + ".." + b {
      assert Dots(key, |a|);
    }
    if key == a + "://" + b {
      assert Mark(key, |a|);
    }
    if key == a + "\\" + b {
      assert key[|a|] == '\\';
    }
  }

  /** The shortest key under a prefix is accepted too. */
  lemma BarePrefixIsAccepted(prefix: string)
    requires Trimmed(prefix) && CleanPrefix(prefix) && |prefix| < 1024
    ensures CheckedKey(prefix, prefix + "/")
  {
    DotsOfJoin(prefix, "");
    var s := prefix + "/";
    assert s == prefix + ("/" + "");
    if Scheme(s) {
      var i :| 0 <= i < |s| - 2 && Mark(s, i);
      assert i + 2 < |prefix|;
      assert Mark(prefix, i);
    }
  }

  lemma UnderPrefix(prefix: string, rest: string)
    ensures prefix + "/" <= prefix + ("/" + rest)
  {
    assert prefix + ("/" + rest) == (prefix + "/") + rest;
  }

  /** The configured prefix is used without the slashes at its ends; with none configured it
      is the default one. */
  lemma PrefixExactly(before: string, kept: string, after: string)
    requires forall i :: 0 <= i < |before| ==> before[i] == '/'
    requires forall i :: 0 <= i < |after| ==> after[i] == '/'
    requires kept != "" && kept[0] != '/' && kept[|kept| - 1] != '/'
    ensures PrefixOf(before + (kept + after)) == kept
    ensures PrefixOf("") == "stapel/comm/overflow"
  {
    DropsLeft(before, kept + after);
    DropsRight(kept, after);
  }

  lemma {:induction false} DropsLeft(before: string, rest: string)
    requires forall i :: 0 <= i < |before| ==> before[i] == '/'
    requires rest != "" && rest[0] != '/'
    ensures DropLeft(before + rest) == rest
  {
    if before == "" {
      assert before + rest == rest;
    } else {
      assert (before + rest)[1..] == before[1..] + rest;
      DropsLeft(before[1..], rest);
    }
  }

  lemma {:induction false} DropsRight(kept: string, after: string)
    requires forall i :: 0 <= i < |after| ==> after[i] == '/'
    requires kept != "" && kept[|kept| - 1] != '/'
    ensures DropRight(kept + after) == kept
    decreases |after|
  {
    if after == "" {
      assert kept + after == kept;
    } else {
      var front := after[..|after| - 1];
      assert (kept + after)[..|kept + after| - 1] == kept + front;
      DropsRight(kept, front);
    }
  }

  /** Path segments joined with slashes. */
  function Path(segments: seq<string>): string {
    if segments == [] then "" else if |segments| == 1 then segments[0] else segments[0] + ("/" + Path(segments[1..]))
  }

  lemma PathOfFour(a: string, b: string, c: string, d: string)
    ensures Path([a, b, c, d]) == a + ("/" + (b + ("/" + (c + ("/" + d)))))
  {
    var one, two, three, four := [d], [c, d], [b, c, d], [a, b, c, d];
    assert two[1..] == one && Path(two) == c + ("/" + d);
    assert three[1..] == two && Path(three) == b + ("/" + Path(two));
    assert four[1..] == three;
  }

  /** The names a bucket rule can be written for: prefix, purpose, function, file. */
  lemma KeysAreSpelled(prefix: string, function_: string, replyKey: string, hex: string)
    requires SafeText(function_) && 0 < |function_| <= 80 && SafeText(replyKey) && |replyKey| <= 200
    ensures NewKey(prefix, function_, Reply, hex) == Path([prefix, "reply", function_, hex + ".json"])
    ensures NewKey(prefix, function_, Request, hex) == Path([prefix, "request", function_, hex + ".json"])
    ensures NewKey(prefix, function_, Checkpoint, hex) == Path([prefix, "checkpoint", function_, hex + ".json"])
    ensures DurableKey(prefix, function_, replyKey) == Path([prefix, "durable-reply", function_, replyKey + ".json"])
  {
    assert Sanitise(function_) == function_ && Sanitise(replyKey) == replyKey;
    PathOfFour(prefix, "reply", function_, hex + ".json");
    PathOfFour(prefix, "request", function_, hex + ".json");
    PathOfFour(prefix, "checkpoint", function_, hex + ".json");
    PathOfFour(prefix, "durable-reply", function_, replyKey + ".json");
  }

  /** And what a name no bucket should see becomes: at most 80 characters of a function's, 200
      of a key's, with every other character an underscore. */
  lemma SegmentsExactly(function_: string, replyKey: string, i: nat)
    ensures |SafeFunction(function_)| == if function_ == "" then 7 else if |function_| <= 80 then |function_| else 80
    ensures |SafeReplyKey(replyKey)| == if |replyKey| <= 200 then |replyKey| else 200
    ensures function_ == "" ==> SafeFunction(function_) == "unknown"
    ensures function_ != "" && i < |SafeFunction(function_)| ==>
              SafeFunction(function_)[i] == if IsLetterDigit(function_[i]) || function_[i] in "._-" then function_[i]
                                            else '_'
    ensures i < |SafeReplyKey(replyKey)| ==>
              SafeReplyKey(replyKey)[i] == if IsLetterDigit(replyKey[i]) || replyKey[i] in "._-" then replyKey[i]
                                           else '_'
  {
    assert Sanitise("unknown") == "unknown";
  }

  /** An ASCII letter or digit, by its code. */
  predicate IsLetterDigit(c: char) {
    48 <= c as int < 58 || 65 <= c as int < 91 || 97 <= c as int < 123
  }

  // ----- reply keys ----------------------------------------------------------------------

  lemma SafeSegments(function_: string, replyKey: string)
    ensures SafeText(SafeFunction(function_)) && SafeText(SafeReplyKey(replyKey))
  {
  }

  lemma OneSplit(a: string, b: string, c: string, d: string)
    requires '/' !in a && '/' !in c && a + ("/" + b) == c + ("/" + d)
    ensures a == c && b == d
  {
    var s, t := a + ("/" + b), c + ("/" + d);
    assert s[|a|] == '/' && t[|c|] == '/';
    assert forall i :: 0 <= i < |a| ==> s[i] == a[i];
    assert forall i :: 0 <= i < |c| ==> t[i] == c[i];
    assert |a| == |c|;
    assert a == s[..|a|] && c == t[..|c|];
    assert b == s[|a| + 1..] && d == t[|c| + 1..];
  }

  lemma SameHead(h: string, a: string, b: string)
    requires h + a == h + b
    ensures a == b
  {
    assert a == (h + a)[|h|..] && b == (h + b)[|h|..];
  }

  lemma SameTail(a: string, b: string, t: string)
    requires a + t == b + t
    ensures a == b
  {
    assert |a + t| == |a| + |t| && |b + t| == |b| + |t|;
    assert a == (a + t)[..|a|] && b == (b + t)[..|b|];
  }

  /** Two calls share a shelf key exactly when both sanitised segments are the same. */
  lemma SameShelfExactly(prefix: string, f: string, k: string, g: string, l: string)
    ensures DurableKey(prefix, f, k) == DurableKey(prefix, g, l)
            <==> SafeFunction(f) == SafeFunction(g) && SafeReplyKey(k) == SafeReplyKey(l)
  {
    if DurableKey(prefix, f, k) == DurableKey(prefix, g, l) {
      var a, b := SafeReplyKey(k) + ".json", SafeReplyKey(l) + ".json";
      var c, d := SafeFunction(f) + ("/" + a), SafeFunction(g) + ("/" + b);
      var head := "durable-reply";
      SameHead(prefix, "/" + (head + ("/" + c)), "/" + (head + ("/" + d)));
      SameHead("/", head + ("/" + c), head + ("/" + d));
      SameHead(head, "/" + c, "/" + d);
      SameHead("/", c, d);
      SafeSegments(f, k);
      SafeSegments(g, l);
      OneSplit(SafeFunction(f), a, SafeFunction(g), b);
      SameTail(SafeReplyKey(k), SafeReplyKey(l), ".json");
    }
  }

  /** A task id as text: hexadecimal digits and dashes. */
  predicate TaskId(id: string) {
    |id| == 36 && forall i :: 0 <= i < |id| ==> '0' <= id[i] <= '9' || 'a' <= id[i] <= 'f' || id[i] == '-'
  }

  /** The first 16 digits of the digest of a call's name and payload. */
  function Fingerprint(c: Codec, function_: string, payload: Json): string {
    Cut(c.sha(c.dumps(JObj(map["fn" := JStr(function_), "payload" := payload]))), 16)
  }

  lemma FingerprintIsHex(c: Codec, function_: string, payload: Json)
    requires HexDigests(c)
    ensures Hex(Fingerprint(c, function_, payload), 16)
  {
    var digest := c.sha(c.dumps(JObj(map["fn" := JStr(function_), "payload" := payload])));
    assert |digest| >= 16 && Hex(digest[..16], 16);
    assert |digest| == 16 ==> digest[..16] == digest;
  }

  /** TaskContext.name_call: the key of one call of one task. */
  function TaskReplyKey(id: string, fingerprint: string): string {
    id + "." + fingerprint
  }

  /** Keys of tasks pass the sanitiser unchanged, and two calls share a shelf key exactly
      when task, fingerprint and sanitised function are the same. */
  lemma TaskKeysAreInjective(prefix: string, f: string, id: string, print_: string,
                             g: string, other: string, print2: string)
    requires TaskId(id) && TaskId(other) && Hex(print_, 16) && Hex(print2, 16)
    ensures SafeReplyKey(TaskReplyKey(id, print_)) == TaskReplyKey(id, print_)
    ensures DurableKey(prefix, f, TaskReplyKey(id, print_)) == DurableKey(prefix, g, TaskReplyKey(other, print2))
            <==> id == other && print_ == print2 && SafeFunction(f) == SafeFunction(g)
  {
    var k, l := TaskReplyKey(id, print_), TaskReplyKey(other, print2);
    assert Sanitise(k) == k && Sanitise(l) == l;
    SameShelfExactly(prefix, f, k, g, l);
    assert id == k[..36] && print_ == k[37..] && other == l[..36] && print2 == l[37..];
  }
}
