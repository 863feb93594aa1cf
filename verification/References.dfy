/** Writing, reading and consuming a reference, comm/overflow.py:259-544, and the replies
    and checkpoints that may travel as one. */
module References {
  import opened Common
  import opened Overflow

  type Fields = map<string, Json>

  type Objects = map<string, Bytes>

  datatype RefError = NoStore | WrongStore | BadKey | Unreadable | WrongLength | WrongDigest | PutFailed

  datatype CallError = BadReference(cause: RefError) | BadFrame | TooLarge | RemoteFailure

  /** What the store does when asked to write: raise, or name the object it wrote; an
      empty name means the key it was given. */
  datatype Put = Refused | Landed(name: string)

  predicate Truthy(v: Json) {
    match v
    case JNull => false
    case JBool(b) => b
    case JInt(i) => i != 0
    case JFloat(text) => text != "0.0" && text != "-0.0"
    case JStr(s) => s != ""
    case JArr(items) => items != []
    case JObj(fields) => fields != map[]
  }

  /** str(fields.get(name) or "") */
  function TextOf(c: Codec, fields: Fields, name: string): string {
    if name !in fields || !Truthy(fields[name]) then ""
    else if fields[name].JStr? then fields[name].s
    else c.str(fields[name])
  }

  /** The value when it is an int, which in Python a bool is as well. */
  function IntOf(fields: Fields, name: string): Option<int> {
    if name !in fields then None
    else match fields[name]
      case JInt(i) => Some(i)
      case JBool(b) => Some(if b then 1 else 0)
      case _ => None
  }

  /** reference_in */
  function ReferenceIn(frame: Json): Option<Fields> {
    if frame.JObj? && "$ref" in frame.fields && frame.fields["$ref"].JObj? then Some(frame.fields["$ref"].fields)
    else None
  }

  function RefOf(store: string, key: string, size: nat, digest: string, function_: string, d: Direction,
                 expires: string): Fields
  {
    map["store" := JStr(store), "key" := JStr(key), "bytes" := JInt(size), "sha256" := JStr(digest),
        "expires_at" := JStr(expires), "function" := JStr(function_), "direction" := JStr(Segment(d))]
  }

  /** The reference store_frame makes for these bytes at this key. */
  function RefTo(cfg: Config, c: Codec, key: string, data: Bytes, function_: string, d: Direction,
                 expires: string): Fields
    requires cfg.store.Some?
  {
    RefOf(cfg.store.value, key, |data|, c.sha(data), function_, d, expires)
  }

  function Frame(ref: Fields): Json {
    JObj(map["$ref" := JObj(ref)])
  }

  // ----- reading -------------------------------------------------------------------------

  /** dereference: the bytes, or the first check that fails. */
  function Checked(cfg: Config, c: Codec, objects: Objects, ref: Fields, readable: bool): Result<Bytes, RefError> {
    var key, remote := TextOf(c, ref, "key"), TextOf(c, ref, "store");
    if cfg.store.None? then Err(NoStore)
    else if remote != "" && remote != cfg.store.value then Err(WrongStore)
    else if !CheckedKey(cfg.prefix, key) then Err(BadKey)
    else if !readable || key !in objects then Err(Unreadable)
    else if IntOf(ref, "bytes").Some? && IntOf(ref, "bytes").value != |objects[key]| then Err(WrongLength)
    else if TextOf(c, ref, "sha256") != "" && c.sha(objects[key]) != TextOf(c, ref, "sha256") then Err(WrongDigest)
    else Ok(objects[key])
  }

  function Loads(c: Codec, raw: Bytes): Option<Json> {
    if raw == [] then Some(JObj(map[])) else c.loads(raw)
  }

  /** What a plain reply frame means to the caller. */
  function Outcome(reply: Json): Result<Json, CallError> {
    if !reply.JObj? then Ok(reply)
    else if "error" in reply.fields && Truthy(reply.fields["error"]) then
      if "error_code" in reply.fields && reply.fields["error_code"] == JStr("payload_too_large") then Err(TooLarge)
      else Err(RemoteFailure)
    else Ok(if "result" in reply.fields then reply.fields["result"] else JNull)
  }

  function Meaning(c: Codec, raw: Bytes): Result<Json, CallError> {
    if Loads(c, raw).None? then Err(BadFrame) else Outcome(Loads(c, raw).value)
  }

  /** _decode_reply */
  function Decoded(cfg: Config, c: Codec, objects: Objects, raw: Bytes, readable: bool): Result<Json, CallError> {
    var reply := Loads(c, raw);
    if reply.None? then Err(BadFrame)
    else if ReferenceIn(reply.value).None? then Outcome(reply.value)
    else
      match Checked(cfg, c, objects, ReferenceIn(reply.value).value, readable)
      case Err(cause) => Err(BadReference(cause))
      case Ok(data) => Meaning(c, data)
  }

  /** The store after a reply was decoded: a reference that passed its checks is consumed. */
  function AfterDecoding(cfg: Config, c: Codec, objects: Objects, raw: Bytes, readable: bool, deletes: bool): Objects {
    if !ReferenceShaped(c, raw) then objects
    else
      var ref := ReferenceIn(Loads(c, raw).value).value;
      if deletes && Checked(cfg, c, objects, ref, readable).Ok? then objects - {TextOf(c, ref, "key")} else objects
  }

  /** The frame would itself be read as a reference. */
  predicate ReferenceShaped(c: Codec, raw: Bytes) {
    Loads(c, raw).Some? && ReferenceIn(Loads(c, raw).value).Some?
  }

  /** The store holds these bytes where a reader looks for them. */
  predicate Kept(cfg: Config, objects: Objects, key: string, data: Bytes) {
    cfg.store.Some? && CheckedKey(cfg.prefix, key) && key in objects && objects[key] == data
  }

  lemma RefFields(c: Codec, store: string, key: string, size: nat, digest: string, function_: string, d: Direction,
      expires: string)
    ensures var ref := RefOf(store, key, size, digest, function_, d, expires);
            && TextOf(c, ref, "store") == store && TextOf(c, ref, "key") == key && TextOf(c, ref, "sha256") == digest
            && IntOf(ref, "bytes") == Some(size)
  {
  }

  lemma FrameCarries(c: Codec, ref: Fields)
    requires RoundTrips(c, Frame(ref))
    ensures Loads(c, c.dumps(Frame(ref))) == Some(Frame(ref)) && ReferenceIn(Frame(ref)) == Some(ref)
  {
  }

  /** A reference yields the bytes it was made for, or other bytes of the same length and
      digest, or nothing, whatever was put in the object's place. */
  lemma OnlyTheSameBytes(cfg: Config, c: Codec, objects: Objects, key: string, data: Bytes, function_: string,
                         d: Direction, expires: string, readable: bool)
    requires cfg.store.Some? && HexDigests(c)
    ensures var r := Checked(cfg, c, objects, RefTo(cfg, c, key, data, function_, d, expires), readable);
            && (r.Ok? ==> r.value == objects[key])
            && (r.Ok? <==> && readable && CheckedKey(cfg.prefix, key) && key in objects
                           && |objects[key]| == |data| && (objects[key] == data || Collide(c, objects[key], data)))
  {
    RefFields(c, cfg.store.value, key, |data|, c.sha(data), function_, d, expires);
    assert |c.sha(data)| >= 16;
  }

  lemma StoredReadsBack(cfg: Config, c: Codec, objects: Objects, key: string, data: Bytes, function_: string,
                        d: Direction, expires: string)
    requires Kept(cfg, objects, key, data)
    ensures Checked(cfg, c, objects, RefTo(cfg, c, key, data, function_, d, expires), true) == Ok(data)
  {
    RefFields(c, cfg.store.value, key, |data|, c.sha(data), function_, d, expires);
  }

  /** A reply sent by reference means what the frame itself means. */
  lemma ByReferenceMeansTheFrame(cfg: Config, c: Codec, objects: Objects, key: string, frame: Bytes,
                                 function_: string, d: Direction, expires: string)
    requires Kept(cfg, objects, key, frame)
    requires RoundTrips(c, Frame(RefTo(cfg, c, key, frame, function_, d, expires)))
    ensures var ref := RefTo(cfg, c, key, frame, function_, d, expires);
            Decoded(cfg, c, objects, c.dumps(Frame(ref)), true) == Meaning(c, frame)
  {
    FrameCarries(c, RefTo(cfg, c, key, frame, function_, d, expires));
    StoredReadsBack(cfg, c, objects, key, frame, function_, d, expires);
  }

  /** A postbox: once a reply by reference was read and its object deleted, it cannot be
      read again, and no other object is touched. */
  lemma ReadOnceThenGone(cfg: Config, c: Codec, objects: Objects, key: string, frame: Bytes,
                         function_: string, d: Direction, expires: string)
    requires Kept(cfg, objects, key, frame)
    requires RoundTrips(c, Frame(RefTo(cfg, c, key, frame, function_, d, expires)))
    ensures var raw := c.dumps(Frame(RefTo(cfg, c, key, frame, function_, d, expires)));
            var after := AfterDecoding(cfg, c, objects, raw, true, true);
            && Decoded(cfg, c, after, raw, true) == Err(BadReference(Unreadable))
            && after == objects - {key}
  {
    FrameCarries(c, RefTo(cfg, c, key, frame, function_, d, expires));
    RefFields(c, cfg.store.value, key, |frame|, c.sha(frame), function_, d, expires);
    StoredReadsBack(cfg, c, objects, key, frame, function_, d, expires);
  }

  /** Sending the frame itself means the same whatever the store holds, exactly when the
      frame is not shaped like a reference. */
  lemma DirectMeansTheFrameExactly(cfg: Config, c: Codec, frame: Bytes)
    ensures (forall objects, readable :: Decoded(cfg, c, objects, frame, readable) == Meaning(c, frame))
            <==> !ReferenceShaped(c, frame)
  {
    if ReferenceShaped(c, frame) {
      var ref := ReferenceIn(Loads(c, frame).value).value;
      assert Checked(cfg, c, map[], ref, false).Err?;
      assert Decoded(cfg, c, map[], frame, false) != Meaning(c, frame);
    }
  }

  /** What the provider answers arrives, by either road. */
  lemma ResultArrives(cfg: Config, c: Codec, objects: Objects, key: string, v: Json, function_: string, expires: string)
    requires RoundTrips(c, JObj(map["result" := v]))
    requires Kept(cfg, objects, key, c.dumps(JObj(map["result" := v])))
    requires RoundTrips(c, Frame(RefTo(cfg, c, key, c.dumps(JObj(map["result" := v])), function_, Reply, expires)))
    ensures var frame := c.dumps(JObj(map["result" := v]));
            var ref := RefTo(cfg, c, key, frame, function_, Reply, expires);
            Decoded(cfg, c, objects, frame, true) == Decoded(cfg, c, objects, c.dumps(Frame(ref)), true) == Ok(v)
  {
    var fields := map["result" := v];
    assert fields.Keys == {"result"};
    assert "$ref" !in fields && "error" !in fields && fields["result"] == v;
    ByReferenceMeansTheFrame(cfg, c, objects, key, c.dumps(JObj(fields)), function_, Reply, expires);
  }

  /** Why a reference is refused: the first of these checks that fails.  A size that is no
      number is not checked, and a bool is a number; an empty store name or digest is not
      checked either. */
  lemma RefusedForExactly(cfg: Config, c: Codec, objects: Objects, store: string, key: string, size: Json,
                          digest: string, function_: string, d: Direction, expires: string, readable: bool)
    ensures var ref := RefOf(store, key, 0, digest, function_, d, expires)["bytes" := size];
            var r := Checked(cfg, c, objects, ref, readable);
            var elsewhere := cfg.store.Some? && store != "" && Some(store) != cfg.store;
            var here := cfg.store.Some? && !elsewhere;
            var found := here && CheckedKey(cfg.prefix, key) && readable && key in objects;
            && (r == Err(NoStore) <==> cfg.store == None)
            && (r == Err(WrongStore) <==> elsewhere)
            && (r == Err(BadKey) <==> here && !CheckedKey(cfg.prefix, key))
            && (r == Err(Unreadable) <==> here && CheckedKey(cfg.prefix, key) && !(readable && key in objects))
            && (r == Err(WrongLength) <==> found && OtherSize(size, |objects[key]|))
            && (r == Err(WrongDigest)
                <==> found && !OtherSize(size, |objects[key]|) && digest != "" && c.sha(objects[key]) != digest)
            && (r.Ok? ==> found && r == Ok(objects[key]))
  {
    var ref := RefOf(store, key, 0, digest, function_, d, expires)["bytes" := size];
    assert TextOf(c, ref, "key") == key && TextOf(c, ref, "store") == store && TextOf(c, ref, "sha256") == digest;
  }

  predicate OtherSize(size: Json, n: nat) {
    (size.JInt? && size.i != n) || (size == JBool(true) && n != 1) || (size == JBool(false) && n != 0)
  }

  /** A key that is no text is taken as its text. */
  lemma OtherKeysAreSpelled(cfg: Config, c: Codec, objects: Objects, data: Bytes, n: int, function_: string,
                            d: Direction, expires: string)
    requires n != 0 && Kept(cfg, objects, c.str(JInt(n)), data)
    ensures Checked(cfg, c, objects, RefTo(cfg, c, "", data, function_, d, expires)["key" := JInt(n)], true) == Ok(data)
  {
    var ref := RefTo(cfg, c, "", data, function_, d, expires)["key" := JInt(n)];
    assert TextOf(c, ref, "key") == c.str(JInt(n)) && TextOf(c, ref, "store") == cfg.store.value;
  }

  /** A reply with nothing in it is a reply of None. */
  lemma EmptyReplyIsNone(cfg: Config, c: Codec, objects: Objects, readable: bool)
    ensures Decoded(cfg, c, objects, [], readable) == Ok(JNull)
  {
  }

  /** An object is gone after a reply was decoded exactly when the reply is a reference to it
      that passed every check, and the delete worked. */
  lemma ConsumedExactly(cfg: Config, c: Codec, objects: Objects, raw: Bytes, readable: bool, deletes: bool,
                        object_: string)
    requires object_ in objects
    ensures object_ !in AfterDecoding(cfg, c, objects, raw, readable, deletes)
            <==> && deletes && ReferenceShaped(c, raw)
                 && var ref := ReferenceIn(Loads(c, raw).value).value;
                    TextOf(c, ref, "key") == object_ && Checked(cfg, c, objects, ref, readable).Ok?
  {
  }

  /** An error frame raises on the caller's side what the provider said, by either road: too
      large for the wire when it is marked so, a remote failure otherwise. */
  lemma ErrorsArrive(cfg: Config, c: Codec, objects: Objects, key: string, fields: Fields, function_: string,
                     expires: string)
    requires "error" in fields && fields["error"].JStr? && fields["error"].s != "" && "$ref" !in fields
    requires RoundTrips(c, JObj(fields)) && Kept(cfg, objects, key, c.dumps(JObj(fields)))
    requires RoundTrips(c, Frame(RefTo(cfg, c, key, c.dumps(JObj(fields)), function_, Reply, expires)))
    ensures var frame := c.dumps(JObj(fields));
            var ref := c.dumps(Frame(RefTo(cfg, c, key, frame, function_, Reply, expires)));
            var marked := "error_code" in fields && fields["error_code"] == JStr("payload_too_large");
            && Decoded(cfg, c, objects, frame, true) == Err(if marked then TooLarge else RemoteFailure)
            && Decoded(cfg, c, objects, ref, true) == Err(if marked then TooLarge else RemoteFailure)
  {
    ByReferenceMeansTheFrame(cfg, c, objects, key, c.dumps(JObj(fields)), function_, Reply, expires);
  }

  /** A reply raises exactly when its frame is no JSON, its reference cannot be resolved, or
      what it holds has an error that is not empty. */
  lemma RepliesRaiseExactly(cfg: Config, c: Codec, objects: Objects, raw: Bytes, readable: bool)
    ensures var r := Decoded(cfg, c, objects, raw, readable);
            var direct := Loads(c, raw);
            && (direct.None? ==> r == Err(BadFrame))
            && (direct.Some? && ReferenceIn(direct.value).None? ==> (r.Err? <==> HasError(direct.value)))
            && (direct.Some? && ReferenceIn(direct.value).Some? ==>
                  var found := Checked(cfg, c, objects, ReferenceIn(direct.value).value, readable);
                  && (r.Err? && r.error.BadReference? <==> found.Err?)
                  && (found.Ok? ==> (r.Err? <==> Loads(c, found.value).None? || HasError(Loads(c, found.value).value))))
  {
  }

  /** reply.get("error") is truthy. */
  predicate HasError(reply: Json) {
    && reply.JObj? && "error" in reply.fields
    && reply.fields["error"] !in {JNull, JBool(false), JInt(0), JFloat("0.0"), JFloat("-0.0"), JStr("")}
    && reply.fields["error"] != JArr([]) && reply.fields["error"] != JObj(map[])
  }

  // ----- checkpoints -----------------------------------------------------------------------

  /** Does this value sit on the row itself? */
  predicate Inline(cfg: Config, c: Codec, v: Json) {
    cfg.inlineMax == 0 || |c.dumps(v)| <= cfg.inlineMax
  }

  /** _decode_checkpoint */
  function CheckpointValue(cfg: Config, c: Codec, objects: Objects, entry: Json, readable: bool, default_: Json): Json {
    if ReferenceIn(entry).None? then entry
    else
      match Checked(cfg, c, objects, ReferenceIn(entry).value, readable)
      case Err(_) => default_
      case Ok(data) => if c.loads(data).Some? then c.loads(data).value else default_
  }

  /** A checkpoint that cannot be read is the default, whatever the reason. */
  lemma UnreadIsDefault(cfg: Config, c: Codec, objects: Objects, entry: Json, readable: bool, default_: Json)
    requires ReferenceIn(entry).Some?
    ensures var found := Checked(cfg, c, objects, ReferenceIn(entry).value, readable);
            found.Err? || c.loads(found.value).None? ==>
              CheckpointValue(cfg, c, objects, entry, readable, default_) == default_
  {
  }

  /** A checkpoint leaves the row exactly when a limit is set and its text is longer. */
  lemma LeavesTheRowExactly(cfg: Config, c: Codec, v: Json)
    ensures !Inline(cfg, c, v) <==> cfg.inlineMax > 0 && |c.dumps(v)| > cfg.inlineMax
  {
  }

  /** A checkpoint taken by reference reads back, as often as it is read, while its object
      is kept. */
  lemma ReferencedCheckpointReadsBack(cfg: Config, c: Codec, objects: Objects, key: string, v: Json, function_: string,
                                      expires: string, default_: Json)
    requires RoundTrips(c, v) && Kept(cfg, objects, key, c.dumps(v))
    ensures var entry := Frame(RefTo(cfg, c, key, c.dumps(v), function_, Checkpoint, expires));
            CheckpointValue(cfg, c, objects, entry, true, default_) == v
  {
    StoredReadsBack(cfg, c, objects, key, c.dumps(v), function_, Checkpoint, expires);
  }

  /** A checkpoint kept on the row reads back whatever the store holds, exactly when the
      value is not shaped like a reference. */
  lemma InlineCheckpointReadsBackExactly(cfg: Config, c: Codec, v: Json)
    ensures (forall objects, readable, default_ :: CheckpointValue(cfg, c, objects, v, readable, default_) == v)
            <==> ReferenceIn(v).None?
  {
    if ReferenceIn(v).Some? {
      assert Checked(cfg, c, map[], ReferenceIn(v).value, false).Err?;
      assert CheckpointValue(cfg, c, map[], v, false, JNull) == JNull;
    }
  }

  // ----- the store -------------------------------------------------------------------------

  class SharedStore {
    const cfg: Config
    const codec: Codec
    var objects: Objects

    constructor (cfg: Config, codec: Codec)
      ensures this.cfg == cfg && this.codec == codec && objects == map[]
    {
      this.cfg, this.codec, objects := cfg, codec, map[];
    }

    /** store_frame: the reference names the object that was really written. */
    method StoreFrame(data: Bytes, function_: string, d: Direction, hex: string, put: Put, expires: string)
      returns (r: Result<Fields, RefError>)
      modifies this
      ensures cfg.store.None? ==> r == Err(NoStore)
      ensures cfg.store.Some? && put.Refused? ==> r == Err(PutFailed)
      ensures r.Err? ==> objects == old(objects)
      ensures r.Ok? ==> cfg.store.Some? && put.Landed?
      ensures cfg.store.Some? && put.Landed? ==>
                var key := if put.name == "" then NewKey(cfg.prefix, function_, d, hex) else put.name;
                && objects == old(objects)[key := data]
                && r == Ok(RefTo(cfg, codec, key, data, function_, d, expires))
    {
      if cfg.store.None? {
        return Err(NoStore);
      }
      var key := NewKey(cfg.prefix, function_, d, hex);
      var digest := codec.sha(data);
      if put.Refused? {
        return Err(PutFailed);
      }
      var actual := if put.name == "" then key else put.name;
      objects := objects[actual := data];
      return Ok(RefOf(cfg.store.value, actual, |data|, digest, function_, d, expires));
    }

    /** dereference: fetch, verify, and consume unless told otherwise; a failed delete
        leaves the object and is not reported. */
    method Dereference(ref: Fields, consume: bool, readable: bool, deletes: bool) returns (r: Result<Bytes, RefError>)
      modifies this
      ensures r == Checked(cfg, codec, old(objects), ref, readable)
      ensures objects == if r.Ok? && consume && deletes then old(objects) - {TextOf(codec, ref, "key")}
                         else old(objects)
    {
      if cfg.store.None? {
        return Err(NoStore);
      }
      var remote := TextOf(codec, ref, "store");
      if remote != "" && remote != cfg.store.value {
        return Err(WrongStore);
      }
      var key := TextOf(codec, ref, "key");
      if !CheckedKey(cfg.prefix, key) {
        return Err(BadKey);
      }
      if !readable || key !in objects {
        return Err(Unreadable);
      }
      var data := objects[key];
      var expected := IntOf(ref, "bytes");
      if expected.Some? && |data| != expected.value {
        return Err(WrongLength);
      }
      var digest := TextOf(codec, ref, "sha256");
      if digest != "" {
        var actual := codec.sha(data);
        if actual != digest {
          return Err(WrongDigest);
        }
      }
      if consume && deletes {
        objects := objects - {key};
      }
      return Ok(data);
    }

    /** _decode_reply: a reply that is a reference is consumed. */
    method DecodeReply(raw: Bytes, readable: bool, deletes: bool) returns (r: Result<Json, CallError>)
      modifies this
      ensures r == Decoded(cfg, codec, old(objects), raw, readable)
      ensures objects == AfterDecoding(cfg, codec, old(objects), raw, readable, deletes)
    {
      var reply := Loads(codec, raw);
      if reply.None? {
        return Err(BadFrame);
      }
      var ref := ReferenceIn(reply.value);
      if ref.Some? {
        var data := Dereference(ref.value, true, readable, deletes);
        if data.Err? {
          return Err(BadReference(data.error));
        }
        reply := Loads(codec, data.value);
        if reply.None? {
          return Err(BadFrame);
        }
      }
      return Outcome(reply.value);
    }

    /** _encode_checkpoint: on the row when it is small or when no store takes it. */
    method EncodeCheckpoint(v: Json, function_: string, hex: string, put: Put, expires: string) returns (entry: Json)
      requires RoundTrips(codec, v)
      modifies this
      ensures Inline(cfg, codec, v) || cfg.store.None? || put.Refused? ==> entry == v && objects == old(objects)
      ensures !Inline(cfg, codec, v) && cfg.store.Some? && put.Landed? ==>
                var key := if put.name == "" then NewKey(cfg.prefix, function_, Checkpoint, hex) else put.name;
                && objects == old(objects)[key := codec.dumps(v)]
                && entry == Frame(RefTo(cfg, codec, key, codec.dumps(v), function_, Checkpoint, expires))
    {
      var blob := codec.dumps(v);
      if cfg.inlineMax == 0 || |blob| <= cfg.inlineMax {
        return codec.loads(blob).value;
      }
      var ref := StoreFrame(blob, function_, Checkpoint, hex, put, expires);
      if ref.Err? {
        return codec.loads(blob).value;
      }
      return Frame(ref.value);
    }

    /** _decode_checkpoint: nothing is consumed. */
    method DecodeCheckpoint(entry: Json, default_: Json, readable: bool) returns (v: Json)
      modifies this
      ensures v == CheckpointValue(cfg, codec, old(objects), entry, readable, default_)
      ensures objects == old(objects)
    {
      var ref := ReferenceIn(entry);
      if ref.None? {
        return entry;
      }
      var raw := Dereference(ref.value, false, readable, true);
      if raw.Ok? && codec.loads(raw.value).Some? {
        return codec.loads(raw.value).value;
      }
      return default_;
    }
  }
}
