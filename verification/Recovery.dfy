/** Named calls over an at-most-once transport: nats_function_transport (comm/nats.py),
    the shelf of durable replies (comm/overflow.py) and the provider's side of it.  The
    provider, the network and the clock are steps that may happen in any order. */
module Recovery {
  import opened Common
  import opened Overflow

  /** A call of one task: TaskContext.name_call derives the reply key from all three.  An
      unnamed call has no task and no key. */
  datatype Request = Request(task: Option<string>, function_: string, payload: Json)

  /** A failure carries its marker: the answer was too large for the wire, or the function
      failed. */
  datatype Frame = Success(value: Json) | Failure(tooLarge: bool)

  /** A frame on the shelf; `put` tells one put from the next. */
  datatype Shelved = Shelved(put: nat, frame: Frame)

  /** `sent` says whether its request went out. */
  datatype Call = Call(request: Request, sent: bool, phase: Phase)

  /** Where a call stands: waiting for the reply, holding a frame it read and is about to
      discard, or over. */
  datatype Phase = Waiting | Holding(shelved: Shelved) | Returned(frame: Frame) | Raised(error: CallError)

  datatype CallError = PayloadTooLarge | NotRegistered | CallFailed

  datatype World = World(
    calls: seq<Call>,
    shelf: map<string, Shelved>,
    made: set<(Request, Frame)>,
    answers: set<(nat, Frame)>,
    puts: nat,
    hits: nat, asked: multiset<Request>, refused: nat,
    taken: multiset<nat>, kept: multiset<nat>)

  const START := World([], map[], {}, {}, 0, 0, multiset{}, 0, multiset{}, multiset{})

  /** `readable` and `deletes` say whether the store answers; `fits` whether the request can
      travel at all; `lands` whether the provider's frame is written under its own key: a
      store may refuse it, or keep what is there and write the new frame elsewhere. */
  datatype Step =
    | Begin(request: Request, readable: bool, fits: bool)
    | Provide(call: nat, frame: Frame, lands: bool)
    | Arrive(call: nat, frame: Frame)
    | NoResponders(call: nat)
    | TimeOut(call: nat, readable: bool)
    | Discard(call: nat, deletes: bool)
    | Lose(key: string)

  type Keys = Request -> string

  /** No two named calls among these share a key. */
  predicate Injective(key: Keys, among: set<Request>) {
    forall r, s :: r in among && s in among && r.task.Some? && s.task.Some? && key(r) == key(s) ==> r == s
  }

  predicate InPhase(w: World, i: nat, waiting: bool) {
    i < |w.calls| && if waiting then w.calls[i].phase.Waiting? else w.calls[i].phase.Holding?
  }

  predicate OnShelf(key: Keys, w: World, request: Request, readable: bool) {
    request.task.Some? && readable && key(request) in w.shelf
  }

  /** A call that has not ended. */
  predicate Open(c: Call) {
    c.phase.Waiting? || c.phase.Holding?
  }

  ghost predicate Allowed(w: World, step: Step) {
    match step
    case Begin(_, _, _) => true
    case Provide(i, _, _) => i < |w.calls| && w.calls[i].sent
    case Arrive(i, frame) => InPhase(w, i, true) && (i, frame) in w.answers
    case NoResponders(i) => InPhase(w, i, true)
    case TimeOut(i, _) => InPhase(w, i, true)
    case Discard(i, _) => InPhase(w, i, false)
    case Lose(_) => true
  }

  function Take(w: World, shelved: Shelved): World {
    w.(taken := w.taken + multiset{shelved.put})
  }

  ghost function Do(key: Keys, w: World, step: Step): World
    requires Allowed(w, step)
  {
    match step
    case Begin(r, readable, fits) =>
      if OnShelf(key, w, r, readable) then
        Take(w, w.shelf[key(r)]).(calls := w.calls + [Call(r, false, Holding(w.shelf[key(r)]))], hits := w.hits + 1)
      else if !fits then w.(calls := w.calls + [Call(r, false, Raised(PayloadTooLarge))], refused := w.refused + 1)
      else w.(calls := w.calls + [Call(r, true, Waiting)], asked := w.asked + multiset{r})
    case Provide(i, frame, lands) =>
      var r := w.calls[i].request;
      var done := w.(made := w.made + {(r, frame)}, answers := w.answers + {(i, frame)});
      if r.task.Some? && frame.Success? && lands then
        done.(shelf := w.shelf[key(r) := Shelved(w.puts, frame)], puts := w.puts + 1)
      else done
    case Arrive(i, frame) => w.(calls := w.calls[i := w.calls[i].(phase := Returned(frame))])
    case NoResponders(i) => w.(calls := w.calls[i := w.calls[i].(phase := Raised(NotRegistered))])
    case TimeOut(i, readable) =>
      var r := w.calls[i].request;
      if OnShelf(key, w, r, readable) then
        Take(w, w.shelf[key(r)]).(calls := w.calls[i := w.calls[i].(phase := Holding(w.shelf[key(r)]))])
      else w.(calls := w.calls[i := w.calls[i].(phase := Raised(CallFailed))])
    case Discard(i, deletes) =>
      var c := w.calls[i];
      var over := w.(calls := w.calls[i := c.(phase := Returned(c.phase.shelved.frame))]);
      if deletes then over.(shelf := w.shelf - {key(c.request)})
      else over.(kept := w.kept + multiset{c.phase.shelved.put})
    case Lose(k) => w.(shelf := w.shelf - {k})
  }

  ghost predicate Runs(key: Keys, w: World, steps: seq<Step>, end: World)
    decreases |steps|
  {
    if steps == [] then end == w
    else Allowed(w, steps[0]) && Runs(key, Do(key, w, steps[0]), steps[1..], end)
  }

  // ----- only what a provider produced for this very call --------------------------------

  ghost predicate Genuine(w: World, r: Request, frame: Frame) {
    (r, frame) in w.made
  }

  /** The shelf holds successes made for a request its key stands for. */
  ghost predicate ShelfGenuine(key: Keys, w: World) {
    forall k :: k in w.shelf ==> w.shelf[k].frame.Success? && MadeFor(key, w, k, w.shelf[k].frame)
  }

  ghost predicate MadeFor(key: Keys, w: World, k: string, frame: Frame) {
    exists r: Request :: r.task.Some? && key(r) == k && Genuine(w, r, frame)
  }

  ghost predicate CallGenuine(w: World, c: Call) {
    match c.phase
    case Holding(shelved) => c.request.task.Some? && Genuine(w, c.request, shelved.frame)
    case Returned(frame) => Genuine(w, c.request, frame)
    case _ => true
  }

  /** Every frame a call has returned, or is about to, was made for that same request. */
  ghost predicate CallsGenuine(w: World) {
    forall i :: 0 <= i < |w.calls| ==> CallGenuine(w, w.calls[i])
  }

  ghost predicate AnswersGenuine(w: World) {
    forall a :: a in w.answers ==> a.0 < |w.calls| && Genuine(w, w.calls[a.0].request, a.1)
  }

  /** Every call either found its answer on the shelf, or asked, or could not be sent. */
  ghost predicate Counted(w: World) {
    w.hits + |w.asked| + w.refused == |w.calls|
  }

  /** All the requests there are. */
  ghost predicate Among(w: World, among: set<Request>) {
    && (forall i :: 0 <= i < |w.calls| ==> w.calls[i].request in among)
    && (forall m :: m in w.made ==> m.0 in among)
  }

  predicate Within(steps: seq<Step>, among: set<Request>) {
    forall i :: 0 <= i < |steps| && steps[i].Begin? ==> steps[i].request in among
  }

  ghost predicate ShelfInv(key: Keys, w: World) {
    ShelfGenuine(key, w) && AnswersGenuine(w) && Counted(w)
  }

  lemma ShelfIsForThisCall(key: Keys, w: World, among: set<Request>, r: Request)
    requires Injective(key, among) && Among(w, among) && ShelfGenuine(key, w)
    requires r in among && r.task.Some? && key(r) in w.shelf
    ensures Genuine(w, r, w.shelf[key(r)].frame)
  {
    assert MadeFor(key, w, key(r), w.shelf[key(r)].frame);
    var s: Request :| s.task.Some? && key(s) == key(r) && Genuine(w, s, w.shelf[key(r)].frame);
  }

  lemma StepKeepsShelf(key: Keys, w: World, step: Step)
    requires ShelfInv(key, w) && Allowed(w, step)
    ensures ShelfInv(key, Do(key, w, step))
  {
    var end := Do(key, w, step);
    forall k | k in end.shelf ensures end.shelf[k].frame.Success? && MadeFor(key, end, k, end.shelf[k].frame) {
      if k in w.shelf && w.shelf[k] == end.shelf[k] {
        assert MadeFor(key, w, k, w.shelf[k].frame);
        var r: Request :| r.task.Some? && key(r) == k && Genuine(w, r, w.shelf[k].frame);
        assert Genuine(end, r, end.shelf[k].frame);
      } else {
        assert Genuine(end, w.calls[step.call].request, step.frame);
      }
    }
  }

  lemma StepKeepsCalls(key: Keys, w: World, among: set<Request>, step: Step)
    requires Injective(key, among) && Among(w, among) && ShelfInv(key, w) && CallsGenuine(w)
    requires Allowed(w, step) && (step.Begin? ==> step.request in among)
    ensures CallsGenuine(Do(key, w, step)) && Among(Do(key, w, step), among)
  {
    match step {
      case Begin(r, readable, _) =>
        if OnShelf(key, w, r, readable) {
          ShelfIsForThisCall(key, w, among, r);
        }
      case TimeOut(i, readable) =>
        if OnShelf(key, w, w.calls[i].request, readable) {
          ShelfIsForThisCall(key, w, among, w.calls[i].request);
        }
      case Discard(i, _) => assert CallGenuine(w, w.calls[i]);
      case _ =>
    }
    var end := Do(key, w, step);
    forall i | 0 <= i < |end.calls| ensures CallGenuine(end, end.calls[i]) {
      assert i < |w.calls| ==> CallGenuine(w, w.calls[i]);
    }
  }

  lemma {:induction false} RunKeepsShelf(key: Keys, w: World, steps: seq<Step>, end: World)
    requires ShelfInv(key, w) && Runs(key, w, steps, end)
    ensures ShelfInv(key, end)
    decreases |steps|
  {
    if steps != [] {
      StepKeepsShelf(key, w, steps[0]);
      RunKeepsShelf(key, Do(key, w, steps[0]), steps[1..], end);
    }
  }

  lemma {:induction false} RunKeepsCalls(key: Keys, w: World, among: set<Request>, steps: seq<Step>, end: World)
    requires Injective(key, among) && Among(w, among) && ShelfInv(key, w) && CallsGenuine(w)
    requires Runs(key, w, steps, end) && Within(steps, among)
    ensures CallsGenuine(end)
    decreases |steps|
  {
    if steps != [] {
      StepKeepsShelf(key, w, steps[0]);
      StepKeepsCalls(key, w, among, steps[0]);
      RunKeepsCalls(key, Do(key, w, steps[0]), among, steps[1..], end);
    }
  }

  /** In every run over these requests, whatever a call returns was made for it. */
  ghost predicate OnlyOwnAnswers(key: Keys, among: set<Request>) {
    forall steps, end :: Runs(key, START, steps, end) && Within(steps, among) ==> CallsGenuine(end)
  }

  /** Under any mix of losses, timeouts, retries and late completions, every call returns
      only frames some provider run produced for that same task, function and payload,
      exactly when no two of the requests share a key. */
  lemma ReturnsOnlyItsOwnExactly(key: Keys, among: set<Request>)
    ensures OnlyOwnAnswers(key, among) <==> Injective(key, among)
  {
    if Injective(key, among) {
      forall steps, end | Runs(key, START, steps, end) && Within(steps, among) ensures CallsGenuine(end) {
        RunKeepsCalls(key, START, among, steps, end);
      }
    } else {
      var r, s :| r in among && s in among && r.task.Some? && s.task.Some? && key(r) == key(s) && r != s;
      var steps, end := SharedKeyMixes(key, r, s);
      assert Runs(key, START, steps, end) && Within(steps, among) && !CallsGenuine(end);
    }
  }

  /** Two requests under one key: the second is answered with the first one's result. */
  lemma SharedKeyMixes(key: Keys, r: Request, s: Request) returns (steps: seq<Step>, end: World)
    requires r.task.Some? && s.task.Some? && key(r) == key(s) && r != s
    ensures Runs(key, START, steps, end) && Within(steps, {r, s}) && !CallsGenuine(end)
    ensures |end.calls| == 2 && end.calls[1] == Call(r, false, Returned(Success(JNull)))
    ensures (r, Success(JNull)) !in end.made
  {
    var frame := Success(JNull);
    steps := [Begin(s, true, true), Provide(0, frame, true), Begin(r, true, true), Discard(1, true)];
    var a := Do(key, START, steps[0]);
    var b := Do(key, a, steps[1]);
    var c := Do(key, b, steps[2]);
    end := Do(key, c, steps[3]);
    RunsFour(key, START, a, b, c, end, steps);
    assert end.made == {(s, frame)};
    assert !CallGenuine(end, end.calls[1]);
  }

  /** Hits, requests and refusals add up to the calls made; and errors are never shelved:
      what is on the shelf is a success, produced for a request its key stands for. */
  lemma ShelfHoldsSuccesses(key: Keys, steps: seq<Step>, end: World, k: string)
    requires Runs(key, START, steps, end)
    ensures end.hits + |end.asked| + end.refused == |end.calls|
    ensures k in end.shelf ==>
              && end.shelf[k].frame.Success?
              && exists r: Request :: r.task.Some? && key(r) == k && Genuine(end, r, end.shelf[k].frame)
  {
    RunKeepsShelf(key, START, steps, end);
    assert k in end.shelf ==> MadeFor(key, end, k, end.shelf[k].frame);
  }

  // ----- the keys of task calls ------------------------------------------------------------

  /** The shelf key provider and caller compute for a call of a task. */
  function CallKey(c: Codec, prefix: string): Keys {
    (r: Request) =>
      if r.task.None? then ""
      else DurableKey(prefix, r.function_, TaskReplyKey(r.task.value, Fingerprint(c, r.function_, r.payload)))
  }

  /** The 16 digits and the function's segment tell the calls of each task apart. */
  predicate ToldApart(c: Codec, among: set<Request>) {
    forall r, s :: r in among && s in among && r.task.Some? && SameKeyParts(c, r, s) ==> r == s
  }

  predicate SameKeyParts(c: Codec, r: Request, s: Request) {
    && r.task == s.task && SafeFunction(r.function_) == SafeFunction(s.function_)
    && Fingerprint(c, r.function_, r.payload) == Fingerprint(c, s.function_, s.payload)
  }

  predicate OfTasks(among: set<Request>) {
    forall r :: r in among && r.task.Some? ==> TaskId(r.task.value)
  }

  lemma SameCallKeyExactly(c: Codec, prefix: string, r: Request, s: Request)
    requires HexDigests(c) && r.task.Some? && s.task.Some? && TaskId(r.task.value) && TaskId(s.task.value)
    ensures CallKey(c, prefix)(r) == CallKey(c, prefix)(s) <==> SameKeyParts(c, r, s)
  {
    var f, g := Fingerprint(c, r.function_, r.payload), Fingerprint(c, s.function_, s.payload);
    FingerprintIsHex(c, r.function_, r.payload);
    FingerprintIsHex(c, s.function_, s.payload);
    TaskKeysAreInjective(prefix, r.function_, r.task.value, f, s.function_, s.task.value, g);
  }

  lemma KeysApartExactly(c: Codec, prefix: string, among: set<Request>)
    requires HexDigests(c) && OfTasks(among)
    ensures Injective(CallKey(c, prefix), among) <==> ToldApart(c, among)
  {
    var key := CallKey(c, prefix);
    forall r, s | r in among && s in among && r.task.Some? && s.task.Some?
      ensures key(r) == key(s) <==> SameKeyParts(c, r, s)
    {
      SameCallKeyExactly(c, prefix, r, s);
    }
  }

  /** The document a call's digest is taken of. */
  function CallDocument(r: Request): Json {
    JObj(map["fn" := JStr(r.function_), "payload" := r.payload])
  }

  /** The digest is of the function and the whole payload: as long as the first 16 digits
      differ where those texts do, two calls of a task share a key only if they are the same
      call; and calls of the same text under the same function name always do. */
  lemma DigestsTellApart(c: Codec, among: set<Request>)
    requires forall r :: r in among ==> RoundTrips(c, CallDocument(r))
    requires forall r, s :: r in among && s in among && c.dumps(CallDocument(r)) != c.dumps(CallDocument(s)) ==>
               Cut(c.sha(c.dumps(CallDocument(r))), 16) != Cut(c.sha(c.dumps(CallDocument(s))), 16)
    ensures ToldApart(c, among)
    ensures forall r, s :: r in among && s in among && r.task == s.task && CallDocument(r) == CallDocument(s) ==>
              SameKeyParts(c, r, s)
  {
    forall r, s | r in among && s in among && r.task.Some? && SameKeyParts(c, r, s) ensures r == s {
      assert c.dumps(CallDocument(r)) == c.dumps(CallDocument(s));
      assert CallDocument(r) == CallDocument(s);
      assert CallDocument(r).fields["fn"] == CallDocument(s).fields["fn"];
      assert CallDocument(r).fields["payload"] == CallDocument(s).fields["payload"];
    }
    forall r, s | r in among && s in among && r.task == s.task && CallDocument(r) == CallDocument(s)
      ensures SameKeyParts(c, r, s)
    {
      assert CallDocument(r).fields["fn"] == CallDocument(s).fields["fn"];
      assert CallDocument(r).fields["payload"] == CallDocument(s).fields["payload"];
    }
  }

  /** Calls of tasks get only their own answers in every run, exactly when the 16 digits
      kept of the digest tell the calls of each task apart. */
  lemma TaskCallsGetTheirOwnExactly(c: Codec, prefix: string, among: set<Request>)
    requires HexDigests(c) && OfTasks(among)
    ensures OnlyOwnAnswers(CallKey(c, prefix), among) <==> ToldApart(c, among)
  {
    KeysApartExactly(c, prefix, among);
    ReturnsOnlyItsOwnExactly(CallKey(c, prefix), among);
  }

  // ----- paid work is not bought twice ---------------------------------------------------

  /** The step takes the frame under this key off the shelf. */
  ghost predicate Clears(key: Keys, w: World, step: Step, k: string) {
    match step
    case Discard(i, deletes) => deletes && InPhase(w, i, false) && key(w.calls[i].request) == k
    case Lose(lost) => lost == k
    case _ => false
  }

  ghost predicate NeverCleared(key: Keys, w: World, steps: seq<Step>, k: string)
    decreases |steps|
  {
    steps == [] || (!Clears(key, w, steps[0], k) && Allowed(w, steps[0]) &&
        NeverCleared(key, Do(key, w, steps[0]), steps[1..], k))
  }

  /** While a finished reply stays on the shelf and the store can be read, the provider is
      not asked for it again. */
  lemma {:induction false} NotBoughtTwice(key: Keys, w: World, steps: seq<Step>, end: World, r: Request)
    requires Runs(key, w, steps, end) && r.task.Some? && key(r) in w.shelf
    requires NeverCleared(key, w, steps, key(r))
    requires forall j :: 0 <= j < |steps| && steps[j].Begin? && steps[j].request == r ==> steps[j].readable
    ensures end.asked[r] == w.asked[r] && key(r) in end.shelf
    decreases |steps|
  {
    if steps != [] {
      var next := Do(key, w, steps[0]);
      assert steps[0].Begin? && steps[0].request == r ==> steps[0].readable;
      assert next.asked[r] == w.asked[r] && key(r) in next.shelf;
      NotBoughtTwice(key, next, steps[1..], end, r);
    }
  }

  /** A step asks the provider only where the read of the shelf found nothing. */
  lemma AskedOnlyWhenEmpty(key: Keys, w: World, step: Step, r: Request)
    requires Allowed(w, step) && Do(key, w, step).asked[r] > w.asked[r]
    ensures step.Begin? && step.request == r && step.fits
    ensures r.task.Some? && step.readable ==> key(r) !in w.shelf
  {
  }

  /** What the provider answers can arrive, once it is made, at the call it was made for. */
  lemma AnswersArrive(key: Keys, w: World, i: nat, frame: Frame, lands: bool)
    requires Allowed(w, Provide(i, frame, lands)) && InPhase(w, i, true)
    ensures var made := Do(key, w, Provide(i, frame, lands));
            && Allowed(made, Arrive(i, frame)) && Do(key, made, Arrive(i, frame)).calls[i].phase == Returned(frame)
            && Do(key, made, Arrive(i, frame)).shelf == made.shelf
  {
  }

  /** A success that landed answers the next call of the same request without asking; one
      that was lost from the shelf is asked for again. */
  lemma LandedAnswersNext(key: Keys, w: World, i: nat, frame: Frame, lands: bool)
    requires Allowed(w, Provide(i, frame, lands)) && w.calls[i].request.task.Some? && frame.Success?
    ensures var r, made := w.calls[i].request, Do(key, w, Provide(i, frame, lands));
            var next, lost := Do(key, made, Begin(r, true, true)), Do(key, made, Lose(key(r)));
            && (lands ==> next.asked == w.asked && next.hits == w.hits + 1
                          && Do(key, next, Discard(|w.calls|, true)).calls[|w.calls|].phase == Returned(frame))
            && Allowed(made, Lose(key(r))) && Do(key, lost, Begin(r, true, true)).asked[r] == w.asked[r] + 1
            && (forall k :: k != key(r) && k in made.shelf ==> k in lost.shelf && lost.shelf[k] == made.shelf[k])
  {
  }

  // ----- one reader a frame --------------------------------------------------------------

  predicate Clash(key: Keys, c: Call, d: Call) {
    Open(c) && Open(d) && c.request.task.Some? && d.request.task.Some? && key(c.request) == key(d.request)
  }

  /** No two calls under the same key are open at once: the attempts of a task follow one
      another. */
  ghost predicate Serial(key: Keys, w: World) {
    forall i, j :: 0 <= i < j < |w.calls| ==> !Clash(key, w.calls[i], w.calls[j])
  }

  predicate Holds(c: Call, put: nat) {
    c.phase.Holding? && c.phase.shelved.put == put
  }

  ghost predicate Held(w: World, put: nat) {
    exists i :: 0 <= i < |w.calls| && Holds(w.calls[i], put)
  }

  /** A frame is read once, and once more for each delete of it that failed. */
  ghost predicate ReadOnce(w: World) {
    forall p :: w.taken[p] <= w.kept[p] + 1
  }

  ghost predicate PutsNumbered(w: World) {
    && (forall p :: p >= w.puts ==> w.taken[p] == 0 && w.kept[p] == 0)
    && (forall k :: k in w.shelf ==> w.shelf[k].put < w.puts)
    && (forall k, l :: k in w.shelf && l in w.shelf && w.shelf[k].put == w.shelf[l].put ==> k == l)
  }

  ghost predicate ShelfUnread(w: World) {
    forall k :: k in w.shelf && !Held(w, w.shelf[k].put) ==> w.taken[w.shelf[k].put] == w.kept[w.shelf[k].put]
  }

  ghost predicate HolderOf(key: Keys, w: World, c: Call) {
    c.phase.Holding? ==>
      var p := c.phase.shelved.put;
      && c.request.task.Some? && p < w.puts && w.taken[p] == w.kept[p] + 1
      && (forall k :: k in w.shelf && w.shelf[k].put == p ==> key(c.request) == k)
  }

  ghost predicate Holders(key: Keys, w: World) {
    && (forall i :: 0 <= i < |w.calls| ==> HolderOf(key, w, w.calls[i]))
    && (forall i, j, p :: 0 <= i < j < |w.calls| && Holds(w.calls[i], p) ==> !Holds(w.calls[j], p))
  }

  ghost predicate ReaderInv(key: Keys, w: World) {
    ReadOnce(w) && PutsNumbered(w) && ShelfUnread(w) && Holders(key, w)
  }

  /** Call `i` takes the frame on its shelf. */
  ghost predicate Takes(key: Keys, w: World, next: World, i: nat) {
    && i <= |w.calls| && |next.calls| == (if i == |w.calls| then i + 1 else |w.calls|)
    && (forall j :: 0 <= j < |w.calls| && j != i ==> next.calls[j] == w.calls[j])
    && (i < |w.calls| ==> w.calls[i].phase.Waiting?)
    && var r := next.calls[i].request;
       && r.task.Some? && key(r) in w.shelf
       && next.calls[i].phase == Holding(w.shelf[key(r)])
       && next.shelf == w.shelf && next.puts == w.puts && next.kept == w.kept
       && next.taken == w.taken + multiset{w.shelf[key(r)].put}
  }

  lemma SerialIsNotHeld(key: Keys, w: World, next: World, i: nat)
    requires ReaderInv(key, w) && Takes(key, w, next, i) && Serial(key, next)
    ensures !Held(w, w.shelf[key(next.calls[i].request)].put)
  {
    var k := key(next.calls[i].request);
    if Held(w, w.shelf[k].put) {
      var j :| 0 <= j < |w.calls| && Holds(w.calls[j], w.shelf[k].put);
      assert HolderOf(key, w, w.calls[j]);
      assert next.calls[j] == w.calls[j];
      assert Clash(key, next.calls[i], next.calls[j]) && Clash(key, next.calls[j], next.calls[i]);
      assert false;
    }
  }

  lemma TakeKeepsReaders(key: Keys, w: World, next: World, i: nat)
    requires ReaderInv(key, w) && Takes(key, w, next, i) && !Held(w, w.shelf[key(next.calls[i].request)].put)
    ensures ReaderInv(key, next)
  {
    var p := w.shelf[key(next.calls[i].request)].put;
    assert Holds(next.calls[i], p);
    forall k | k in next.shelf && !Held(next, next.shelf[k].put)
      ensures next.taken[next.shelf[k].put] == next.kept[next.shelf[k].put]
    {
      assert next.shelf[k].put != p;
      StillHeld(w, next, i, next.shelf[k].put);
    }
    forall j | 0 <= j < |next.calls| ensures HolderOf(key, next, next.calls[j]) {
      if j != i {
        assert HolderOf(key, w, w.calls[j]);
        assert !Holds(w.calls[j], p);
      }
    }
  }

  lemma StillHeld(w: World, next: World, i: nat, p: nat)
    requires |w.calls| <= |next.calls| && forall j :: 0 <= j < |w.calls| && j != i ==> next.calls[j] == w.calls[j]
    requires i < |w.calls| ==> !Holds(w.calls[i], p)
    ensures Held(w, p) ==> Held(next, p)
  {
    if Held(w, p) {
      var j :| 0 <= j < |w.calls| && Holds(w.calls[j], p);
      assert Holds(next.calls[j], p);
    }
  }

  lemma DiscardKeepsReaders(key: Keys, w: World, i: nat, deletes: bool)
    requires ReaderInv(key, w) && InPhase(w, i, false)
    ensures ReaderInv(key, Do(key, w, Discard(i, deletes)))
  {
    var next := Do(key, w, Discard(i, deletes));
    var p := w.calls[i].phase.shelved.put;
    assert HolderOf(key, w, w.calls[i]);
    forall k | k in next.shelf && !Held(next, next.shelf[k].put)
      ensures next.taken[next.shelf[k].put] == next.kept[next.shelf[k].put]
    {
      if next.shelf[k].put != p {
        StillHeld(w, next, i, next.shelf[k].put);
      }
    }
    forall j | 0 <= j < |next.calls| ensures HolderOf(key, next, next.calls[j]) {
      assert HolderOf(key, w, w.calls[j]);
      assert j != i ==> !Holds(w.calls[j], p);
    }
  }

  lemma ProvideKeepsReaders(key: Keys, w: World, i: nat, frame: Frame, lands: bool)
    requires ReaderInv(key, w) && Allowed(w, Provide(i, frame, lands))
    ensures ReaderInv(key, Do(key, w, Provide(i, frame, lands)))
  {
    var next := Do(key, w, Provide(i, frame, lands));
    forall k | k in next.shelf && !Held(next, next.shelf[k].put)
      ensures next.taken[next.shelf[k].put] == next.kept[next.shelf[k].put]
    {
      if next.shelf[k].put != w.puts {
        StillHeld(w, next, |w.calls|, next.shelf[k].put);
      }
    }
    forall j | 0 <= j < |next.calls| ensures HolderOf(key, next, next.calls[j]) {
      assert HolderOf(key, w, w.calls[j]);
    }
  }

  /** A step that takes no frame, discards none and shelves none. */
  ghost predicate Idle(w: World, next: World) {
    && |w.calls| <= |next.calls|
    && (forall j :: 0 <= j < |next.calls| && next.calls[j].phase.Holding? ==>
      j < |w.calls| && next.calls[j] == w.calls[j])
    && (forall j :: 0 <= j < |w.calls| && w.calls[j].phase.Holding? ==> next.calls[j] == w.calls[j])
    && next.taken == w.taken && next.kept == w.kept && next.puts == w.puts
    && (forall k :: k in next.shelf ==> k in w.shelf && next.shelf[k] == w.shelf[k])
  }

  lemma IdleStillHolds(w: World, next: World, p: nat)
    requires Idle(w, next)
    ensures Held(w, p) ==> Held(next, p)
  {
    if Held(w, p) {
      var j :| 0 <= j < |w.calls| && Holds(w.calls[j], p);
      assert Holds(next.calls[j], p);
    }
  }

  lemma IdleKeepsReaders(key: Keys, w: World, next: World)
    requires ReaderInv(key, w) && Idle(w, next)
    ensures ReaderInv(key, next)
  {
    forall k | k in next.shelf && !Held(next, next.shelf[k].put)
      ensures next.taken[next.shelf[k].put] == next.kept[next.shelf[k].put]
    {
      IdleStillHolds(w, next, next.shelf[k].put);
    }
    forall j | 0 <= j < |next.calls| ensures HolderOf(key, next, next.calls[j]) {
      if next.calls[j].phase.Holding? {
        assert HolderOf(key, w, w.calls[j]);
      }
    }
  }

  /** The call that reads the shelf in this step, if one does. */
  function Reader(key: Keys, w: World, step: Step): Option<nat> {
    if step.Begin? && OnShelf(key, w, step.request, step.readable) then Some(|w.calls|)
    else if step.TimeOut? && step.call < |w.calls| && OnShelf(key, w, w.calls[step.call].request, step.readable) then
      Some(step.call)
    else None
  }

  /** It reads a frame that another call has read and not yet discarded. */
  ghost predicate ReadsHeld(key: Keys, w: World, step: Step) {
    Reader(key, w, step).Some? &&
    var r := if step.Begin? then step.request else w.calls[step.call].request;
    key(r) in w.shelf && Held(w, w.shelf[key(r)].put)
  }

  lemma ReaderTakes(key: Keys, w: World, step: Step)
    requires Allowed(w, step) && Reader(key, w, step).Some?
    ensures Takes(key, w, Do(key, w, step), Reader(key, w, step).value)
    ensures var r := if step.Begin? then step.request else w.calls[step.call].request;
            Do(key, w, step).calls[Reader(key, w, step).value].request == r
  {
  }

  lemma StepKeepsReaders(key: Keys, w: World, step: Step)
    requires ReaderInv(key, w) && Allowed(w, step) && !ReadsHeld(key, w, step)
    ensures ReaderInv(key, Do(key, w, step))
  {
    if step.Discard? {
      DiscardKeepsReaders(key, w, step.call, step.deletes);
    } else if Reader(key, w, step).Some? {
      ReaderTakes(key, w, step);
      TakeKeepsReaders(key, w, Do(key, w, step), Reader(key, w, step).value);
    } else if step.Provide? {
      ProvideKeepsReaders(key, w, step.call, step.frame, step.lands);
    } else {
      IdleKeepsReaders(key, w, Do(key, w, step));
    }
  }

  /** Reading a held frame reads it once too often. */
  lemma ReadingHeldReadsTwice(key: Keys, w: World, step: Step)
    requires ReaderInv(key, w) && Allowed(w, step) && ReadsHeld(key, w, step)
    ensures !ReadOnce(Do(key, w, step))
  {
    var r := if step.Begin? then step.request else w.calls[step.call].request;
    var p := w.shelf[key(r)].put;
    var j :| 0 <= j < |w.calls| && Holds(w.calls[j], p);
    assert HolderOf(key, w, w.calls[j]);
    ReaderTakes(key, w, step);
    assert Do(key, w, step).taken[p] == Do(key, w, step).kept[p] + 2;
  }

  ghost predicate AlwaysReadOnce(key: Keys, w: World, steps: seq<Step>)
    decreases |steps|
  {
    ReadOnce(w) && (steps == [] || (Allowed(w, steps[0]) && AlwaysReadOnce(key, Do(key, w, steps[0]), steps[1..])))
  }

  ghost predicate NeverReadsHeld(key: Keys, w: World, steps: seq<Step>)
    decreases |steps|
  {
    steps == [] ||
    (Allowed(w, steps[0]) && !ReadsHeld(key, w, steps[0]) && NeverReadsHeld(key, Do(key, w, steps[0]), steps[1..]))
  }

  /** In every run: no frame is ever read more than once, plus once for each delete of it
      that failed, exactly when no call reads a frame that another one has read and not yet
      discarded. */
  lemma {:induction false} ConsumedOnceExactly(key: Keys, w: World, steps: seq<Step>, end: World)
    requires ReaderInv(key, w) && Runs(key, w, steps, end)
    ensures AlwaysReadOnce(key, w, steps) <==> NeverReadsHeld(key, w, steps)
    decreases |steps|
  {
    if steps != [] {
      var next := Do(key, w, steps[0]);
      if ReadsHeld(key, w, steps[0]) {
        ReadingHeldReadsTwice(key, w, steps[0]);
        assert !AlwaysReadOnce(key, next, steps[1..]);
      } else {
        StepKeepsReaders(key, w, steps[0]);
        ConsumedOnceExactly(key, next, steps[1..], end);
      }
    }
  }

  lemma {:induction false} NeverHeldKeepsReaders(key: Keys, w: World, steps: seq<Step>, end: World)
    requires ReaderInv(key, w) && Runs(key, w, steps, end) && NeverReadsHeld(key, w, steps)
    ensures ReaderInv(key, end)
    decreases |steps|
  {
    if steps != [] {
      StepKeepsReaders(key, w, steps[0]);
      NeverHeldKeepsReaders(key, Do(key, w, steps[0]), steps[1..], end);
    }
  }

  ghost predicate AlwaysSerial(key: Keys, w: World, steps: seq<Step>)
    decreases |steps|
  {
    Serial(key, w) && (steps == [] || (Allowed(w, steps[0]) && AlwaysSerial(key, Do(key, w, steps[0]), steps[1..])))
  }

  lemma {:induction false} SerialNeverReadsHeld(key: Keys, w: World, steps: seq<Step>, end: World)
    requires ReaderInv(key, w) && Runs(key, w, steps, end) && AlwaysSerial(key, w, steps)
    ensures NeverReadsHeld(key, w, steps)
    decreases |steps|
  {
    if steps != [] {
      if Reader(key, w, steps[0]).Some? {
        ReaderTakes(key, w, steps[0]);
        SerialIsNotHeld(key, w, Do(key, w, steps[0]), Reader(key, w, steps[0]).value);
      }
      StepKeepsReaders(key, w, steps[0]);
      SerialNeverReadsHeld(key, Do(key, w, steps[0]), steps[1..], end);
    }
  }

  /** Attempts that follow one another consume each shelved frame at most once, plus once
      for each delete of it that failed. */
  lemma ConsumedAtMostOnce(key: Keys, steps: seq<Step>, end: World, put: nat)
    requires Runs(key, START, steps, end) && AlwaysSerial(key, START, steps)
    ensures end.taken[put] <= end.kept[put] + 1
  {
    SerialNeverReadsHeld(key, START, steps, end);
    NeverHeldKeepsReaders(key, START, steps, end);
  }

  /** Two open calls under one key can read the same frame with no delete failing. */
  lemma OverlappingCallsReadTwice(key: Keys, r: Request, v: Json) returns (steps: seq<Step>, end: World)
    requires r.task.Some?
    ensures Runs(key, START, steps, end) && !Serial(key, end) && end.taken[0] == 2 && end.kept[0] == 0
  {
    steps := [Begin(r, true, true), Provide(0, Success(v), true), Begin(r, true, true), TimeOut(0, true)];
    var a := Do(key, START, steps[0]);
    var b := Do(key, a, steps[1]);
    var c := Do(key, b, steps[2]);
    end := Do(key, c, steps[3]);
    RunsFour(key, START, a, b, c, end, steps);
    assert Clash(key, end.calls[0], end.calls[1]);
    assert end.taken == multiset{0, 0} && end.kept == multiset{};
  }

  lemma RunsOne(key: Keys, w: World, step: Step)
    requires Allowed(w, step)
    ensures Runs(key, w, [step], Do(key, w, step))
  {
    assert [step][1..] == [];
  }

  lemma RunsFour(key: Keys, w: World, a: World, b: World, c: World, d: World, steps: seq<Step>)
    requires |steps| == 4 && Allowed(w, steps[0]) && a == Do(key, w, steps[0])
    requires Allowed(a, steps[1]) && b == Do(key, a, steps[1])
    requires Allowed(b, steps[2]) && c == Do(key, b, steps[2])
    requires Allowed(c, steps[3]) && d == Do(key, c, steps[3])
    ensures Runs(key, w, steps, d)
  {
    RunsOne(key, w, steps[0]);
    RunsOne(key, a, steps[1]);
    RunsOne(key, b, steps[2]);
    RunsOne(key, c, steps[3]);
    RunsAppend(key, w, [steps[0]], a, [steps[1]], b);
    RunsAppend(key, b, [steps[2]], c, [steps[3]], d);
    RunsAppend(key, w, [steps[0]] + [steps[1]], b, [steps[2]] + [steps[3]], d);
    assert [steps[0]] + [steps[1]] + ([steps[2]] + [steps[3]]) == steps;
  }

  lemma {:induction false} RunsAppend(key: Keys, w: World, a: seq<Step>, mid: World, b: seq<Step>, end: World)
    requires Runs(key, w, a, mid) && Runs(key, mid, b, end)
    ensures Runs(key, w, a + b, end)
    decreases |a|
  {
    if a == [] {
      assert a + b == b;
    } else {
      RunsAppend(key, Do(key, w, a[0]), a[1..], mid, b, end);
      assert (a + b)[1..] == a[1..] + b;
    }
  }

  // ----- one call, as the caller runs it ---------------------------------------------------

  type Shelf = map<string, Frame>

  /** What the wire did with the request. */
  datatype Wire = Replied(frame: Frame) | NoResponder | TimedOut

  /** How the store answers one read and the delete after it. */
  datatype Access = Access(readable: bool, deletes: bool)

  datatype Outcome = Outcome(result: Result<Frame, CallError>, asked: bool, shelf: Shelf)

  predicate Found(key: Keys, shelf: Shelf, r: Request, access: Access) {
    r.task.Some? && access.readable && key(r) in shelf
  }

  function Taken(key: Keys, shelf: Shelf, r: Request, access: Access): Shelf {
    if access.deletes then shelf - {key(r)} else shelf
  }

  /** After the wire: `meanwhile` is the shelf as the others left it while the call
      waited. */
  function Afterwards(key: Keys, r: Request, wire: Wire, meanwhile: Shelf, after: Access): Outcome {
    match wire
    case Replied(frame) => Outcome(Ok(frame), true, meanwhile)
    case NoResponder => Outcome(Err(NotRegistered), true, meanwhile)
    case TimedOut =>
      if Found(key, meanwhile, r, after) then Outcome(Ok(meanwhile[key(r)]), true, Taken(key, meanwhile, r, after))
      else Outcome(Err(CallFailed), true, meanwhile)
  }

  /** nats_function_transport */
  function Conduct(key: Keys, shelf: Shelf, r: Request, before: Access, fits: bool,
                   wire: Wire, meanwhile: Shelf, after: Access): Outcome {
    if Found(key, shelf, r, before) then Outcome(Ok(shelf[key(r)]), false, Taken(key, shelf, r, before))
    else if !fits then Outcome(Err(PayloadTooLarge), false, shelf)
    else Afterwards(key, r, wire, meanwhile, after)
  }

  function ShelfOf(w: World): Shelf {
    map k | k in w.shelf :: w.shelf[k].frame
  }

  /** The steps of the protocol that end a call which is waiting in `mid`. */
  ghost function Ending(key: Keys, mid: World, i: nat, wire: Wire, after: Access): seq<Step>
    requires i < |mid.calls|
  {
    match wire
    case Replied(frame) => [Arrive(i, frame)]
    case NoResponder => [Step.NoResponders(i)]
    case TimedOut =>
      if OnShelf(key, mid, mid.calls[i].request, after.readable) then
        [TimeOut(i, after.readable), Discard(i, after.deletes)]
      else [TimeOut(i, after.readable)]
  }

  function PhaseOf(result: Result<Frame, CallError>): Phase {
    match result
    case Ok(frame) => Returned(frame)
    case Err(e) => Raised(e)
  }

  ghost predicate EndsAs(end: World, i: nat, outcome: Outcome) {
    && i < |end.calls| && ShelfOf(end) == outcome.shelf
    && end.calls[i].sent == outcome.asked
    && end.calls[i].phase == PhaseOf(outcome.result)
  }

  /** Which error a call raises, by what happened to it; and it returns a frame otherwise. */
  lemma RaisesExactly(key: Keys, shelf: Shelf, r: Request, before: Access, fits: bool, wire: Wire, meanwhile: Shelf,
                      after: Access)
    ensures var result := Conduct(key, shelf, r, before, fits, wire, meanwhile, after).result;
            var hit := r.task.Some? && before.readable && key(r) in shelf;
            var saved := r.task.Some? && after.readable && key(r) in meanwhile;
            && (result == Err(PayloadTooLarge) <==> !hit && !fits)
            && (result == Err(NotRegistered) <==> !hit && fits && wire == NoResponder)
            && (result == Err(CallFailed) <==> !hit && fits && wire == TimedOut && !saved)
  {
  }

  /** Which frame it returns: the shelved one without asking, the reply, or the shelved one
      after all; and what it leaves on the shelf. */
  lemma ReturnsExactly(key: Keys, shelf: Shelf, r: Request, before: Access, fits: bool, wire: Wire, meanwhile: Shelf,
                       after: Access, frame: Frame)
    ensures var o := Conduct(key, shelf, r, before, fits, wire, meanwhile, after);
            var hit := r.task.Some? && before.readable && key(r) in shelf;
            var saved := r.task.Some? && after.readable && key(r) in meanwhile;
            && (o.asked <==> !hit && fits)
            && (o.result == Ok(frame)
                <==> || (hit && shelf[key(r)] == frame)
                     || (!hit && fits && wire == Replied(frame))
                     || (!hit && fits && wire == TimedOut && saved && meanwhile[key(r)] == frame))
            && o.shelf.Keys == (if o.asked then meanwhile.Keys else shelf.Keys)
                 - (if (hit && before.deletes) || (o.asked && wire == TimedOut && saved && after.deletes)
                    then {key(r)} else {})
            && forall k :: k in o.shelf ==> o.shelf[k] == (if o.asked then meanwhile else shelf)[k]
  {
  }

  /** And in the protocol: a call raises for want of a responder only when none was there, for
      its size only when it was never sent, and otherwise only after a wait that ended with
      nothing on the shelf. */
  lemma StepRaisesExactly(key: Keys, w: World, step: Step, i: nat, e: CallError)
    requires Allowed(w, step) && i < |Do(key, w, step).calls|
    requires i < |w.calls| ==> Open(w.calls[i])
    ensures Do(key, w, step).calls[i].phase == Raised(e)
            <==> match e {
                   case NotRegistered => step == NoResponders(i)
                   case PayloadTooLarge =>
                     step.Begin? && i == |w.calls| && !step.fits && !OnShelf(key, w, step.request, step.readable)
                   case CallFailed =>
                     step.TimeOut? && step.call == i && !OnShelf(key, w, w.calls[i].request, step.readable)
                 }
  {
  }

  /** A request too large to travel: refused at once, with nothing asked. */
  lemma RefusedIsARun(key: Keys, w: World, r: Request, before: Access, wire: Wire, meanwhile: Shelf, after: Access)
    requires !OnShelf(key, w, r, before.readable)
    ensures var end := Do(key, w, Begin(r, before.readable, false));
            && Runs(key, w, [Begin(r, before.readable, false)], end)
            && EndsAs(end, |w.calls|, Conduct(key, ShelfOf(w), r, before, false, wire, meanwhile, after))
            && end.asked == w.asked
  {
    RunsOne(key, w, Begin(r, before.readable, false));
  }

  lemma HitIsARun(key: Keys, w: World, r: Request, before: Access, fits: bool)
    requires OnShelf(key, w, r, before.readable)
    ensures exists end ::
              && Runs(key, w, [Begin(r, before.readable, fits), Discard(|w.calls|, before.deletes)], end)
              && EndsAs(end, |w.calls|, Outcome(Ok(ShelfOf(w)[key(r)]), false, Taken(key, ShelfOf(w), r, before)))
  {
    var held := Do(key, w, Begin(r, before.readable, fits));
    var end := Do(key, held, Discard(|w.calls|, before.deletes));
    RunsOne(key, w, Begin(r, before.readable, fits));
    RunsOne(key, held, Discard(|w.calls|, before.deletes));
    RunsAppend(key, w, [Begin(r, before.readable, fits)], held, [Discard(|w.calls|, before.deletes)], end);
    assert [Begin(r, before.readable, fits)] + [Discard(|w.calls|, before.deletes)]
        == [Begin(r, before.readable, fits), Discard(|w.calls|, before.deletes)];
    assert EndsAs(end, |w.calls|, Outcome(Ok(ShelfOf(w)[key(r)]), false, Taken(key, ShelfOf(w), r, before)));
  }

  lemma EndingIsARun(key: Keys, mid: World, i: nat, wire: Wire, after: Access)
    requires InPhase(mid, i, true) && mid.calls[i].sent && (wire.Replied? ==> (i, wire.frame) in mid.answers)
    ensures exists end ::
              && Runs(key, mid, Ending(key, mid, i, wire, after), end)
              && EndsAs(end, i, Afterwards(key, mid.calls[i].request, wire, ShelfOf(mid), after))
  {
    var outcome := Afterwards(key, mid.calls[i].request, wire, ShelfOf(mid), after);
    var steps := Ending(key, mid, i, wire, after);
    var next := Do(key, mid, steps[0]);
    RunsOne(key, mid, steps[0]);
    if wire.TimedOut? && OnShelf(key, mid, mid.calls[i].request, after.readable) {
      RecoveredIsARun(key, mid, i, after);
    } else {
      assert steps == [steps[0]];
      assert EndsAs(next, i, outcome);
    }
  }

  lemma RecoveredEndsAs(key: Keys, mid: World, i: nat, after: Access)
    requires InPhase(mid, i, true) && mid.calls[i].sent && OnShelf(key, mid, mid.calls[i].request, after.readable)
    ensures var end := Do(key, Do(key, mid, TimeOut(i, after.readable)), Discard(i, after.deletes));
            EndsAs(end, i, Afterwards(key, mid.calls[i].request, TimedOut, ShelfOf(mid), after))
  {
    var r := mid.calls[i].request;
    var next := Do(key, mid, TimeOut(i, after.readable));
    assert next.calls[i] == Call(r, true, Holding(mid.shelf[key(r)]));
    var end := Do(key, next, Discard(i, after.deletes));
    assert end.calls[i] == Call(r, true, Returned(ShelfOf(mid)[key(r)]));
    assert ShelfOf(end) == Taken(key, ShelfOf(mid), r, after);
  }

  /** A reply that did not come, taken from the shelf after all. */
  lemma RecoveredIsARun(key: Keys, mid: World, i: nat, after: Access)
    requires InPhase(mid, i, true) && mid.calls[i].sent && OnShelf(key, mid, mid.calls[i].request, after.readable)
    ensures exists end ::
              && Runs(key, mid, [TimeOut(i, after.readable), Discard(i, after.deletes)], end)
              && EndsAs(end, i, Afterwards(key, mid.calls[i].request, TimedOut, ShelfOf(mid), after))
  {
    var next := Do(key, mid, TimeOut(i, after.readable));
    var end := Do(key, next, Discard(i, after.deletes));
    RunsOne(key, mid, TimeOut(i, after.readable));
    RunsOne(key, next, Discard(i, after.deletes));
    RunsAppend(key, mid, [TimeOut(i, after.readable)], next, [Discard(i, after.deletes)], end);
    assert [TimeOut(i, after.readable)] + [Discard(i, after.deletes)]
        == [TimeOut(i, after.readable), Discard(i, after.deletes)];
    RecoveredEndsAs(key, mid, i, after);
  }

  lemma {:induction false} OthersKeepRequest(key: Keys, w: World, steps: seq<Step>, end: World, i: nat)
    requires Runs(key, w, steps, end) && i < |w.calls|
    ensures i < |end.calls| && end.calls[i].request == w.calls[i].request && end.calls[i].sent == w.calls[i].sent
    decreases |steps|
  {
    if steps != [] {
      OthersKeepRequest(key, Do(key, w, steps[0]), steps[1..], end, i);
    }
  }

  /** What the caller does is a run of the protocol, whatever the others do while it
      waits. */
  lemma CallIsARun(key: Keys, w: World, r: Request, before: Access, wire: Wire, others: seq<Step>, mid: World,
                   after: Access)
    requires !OnShelf(key, w, r, before.readable)
    requires Runs(key, Do(key, w, Begin(r, before.readable, true)), others, mid)
    requires InPhase(mid, |w.calls|, true)
    requires wire.Replied? ==> (|w.calls|, wire.frame) in mid.answers
    ensures exists end ::
              && Runs(key, w, [Begin(r, before.readable, true)] + others + Ending(key, mid, |w.calls|, wire, after),
                      end)
              && EndsAs(end, |w.calls|, Conduct(key, ShelfOf(w), r, before, true, wire, ShelfOf(mid), after))
  {
    var i, begun := |w.calls|, Do(key, w, Begin(r, before.readable, true));
    var outcome := Conduct(key, ShelfOf(w), r, before, true, wire, ShelfOf(mid), after);
    OthersKeepRequest(key, begun, others, mid, i);
    EndingIsARun(key, mid, i, wire, after);
    var end :| Runs(key, mid, Ending(key, mid, i, wire, after), end) && EndsAs(end, i, outcome);
    RunsOne(key, w, Begin(r, before.readable, true));
    RunsAppend(key, w, [Begin(r, before.readable, true)], begun, others, mid);
    RunsAppend(key, w, [Begin(r, before.readable, true)] + others, mid, Ending(key, mid, i, wire, after), end);
  }

  /** What a store does with a put. */
  datatype Landing = Refused | OnItsKey | Elsewhere

  class DurableShelf {
    const key: Keys
    var frames: Shelf

    constructor (key: Keys)
      ensures this.key == key && frames == map[]
    {
      this.key, frames := key, map[];
    }

    /** put_durable_reply: successes of named calls only.  It says so even when the store
        wrote the frame under another name, where no caller looks. */
    method Put(r: Request, frame: Frame, landing: Landing) returns (said: Option<string>)
      modifies this
      ensures said == if r.task.Some? && frame.Success? && !landing.Refused? then Some(key(r)) else None
      ensures frames == if said.Some? && landing.OnItsKey? then old(frames)[key(r) := frame] else old(frames)
    {
      if r.task.None? || frame.Failure? || landing.Refused? {
        return None;
      }
      if landing.OnItsKey? {
        frames := frames[key(r) := frame];
      }
      return Some(key(r));
    }

    /** take_durable_reply */
    method Take(r: Request, access: Access) returns (frame: Option<Frame>)
      modifies this
      ensures frame == if Found(key, old(frames), r, access) then Some(old(frames)[key(r)]) else None
      ensures frames == if frame.Some? then Taken(key, old(frames), r, access) else old(frames)
    {
      if r.task.None? || !access.readable || key(r) !in frames {
        return None;
      }
      var data := frames[key(r)];
      if access.deletes {
        frames := frames - {key(r)};
      }
      return Some(data);
    }

    /** nats_function_transport: the shelf before the wire, and after a reply that did not
        come.  `meanwhile` is what the shelf holds when the wait is over. */
    method Transport(r: Request, before: Access, fits: bool, wire: Wire, meanwhile: Shelf, after: Access)
      returns (result: Result<Frame, CallError>, asked: bool)
      modifies this
      ensures Outcome(result, asked, frames) == Conduct(key, old(frames), r, before, fits, wire, meanwhile, after)
    {
      var stored := Take(r, before);
      if stored.Some? {
        return Ok(stored.value), false;
      }
      if !fits {
        return Err(PayloadTooLarge), false;
      }
      frames := meanwhile;
      match wire {
        case Replied(frame) =>
          return Ok(frame), true;
        case NoResponder =>
          return Err(NotRegistered), true;
        case TimedOut =>
          stored := Take(r, after);
          if stored.Some? {
            return Ok(stored.value), true;
          }
          return Err(CallFailed), true;
      }
    }
  }
}
