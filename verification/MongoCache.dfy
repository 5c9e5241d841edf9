/** The in-process document cache under outside writers: what a get may serve, and how old it can be. */
module MongoCache {
  import opened AuthTypes
  import opened MongoStore

  /** A document value and the instant it became the stored one. */
  datatype Change = Change(doc: Option<Document>, at: int)

  /** A cache entry; `readAt` is when the server read the document, `latency` how long that get took. */
  datatype Entry = Entry(doc: Document, timestamp: int, readAt: int, latency: int)

  /** A get past its cache miss: started, then read by the server, then answered. */
  datatype Flight = Waiting(startedAt: int) | Read(startedAt: int, doc: Option<Document>, readAt: int)

  /** A document handed to a caller. */
  datatype Served = Served(doc: Document, at: int, latency: int)

  /** One document id. `history` is never empty; its last change is what the server stores now. */
  datatype State = State(
    now: int, history: seq<Change>, cache: Option<Entry>, flights: map<nat, Flight>, served: seq<Served>)

  datatype Step =
    | Tick(to: int)
    | OutsideWrite(doc: Option<Document>) // any writer, this process's own upserts included
    | Invalidate                          // a finished set, touch or delete of this process
    | Cleanup
    | Lookup(get: nat)
    | ServerRead(get: nat)
    | Answer(get: nat)

  predicate Legal(s: State, step: Step) {
    match step
    case Tick(to) => s.now <= to
    case Lookup(g) => g !in s.flights
    case ServerRead(g) => g in s.flights && s.flights[g].Waiting?
    case Answer(g) => g in s.flights && s.flights[g].Read?
    case _ => true
  }

  predicate Usable(e: Entry, now: int) {
    now - e.timestamp <= CACHE_TTL
  }

  function Next(s: State, step: Step): State
    requires s.history != [] && Legal(s, step)
  {
    match step
    case Tick(to) => s.(now := to)
    case OutsideWrite(doc) => s.(history := s.history + [Change(doc, s.now)])
    case Invalidate => s.(cache := None)
    case Cleanup => if s.cache.Some? && !Usable(s.cache.value, s.now) then s.(cache := None) else s
    case Lookup(g) =>
      if s.cache.Some? && Usable(s.cache.value, s.now) then
        s.(served := s.served + [Served(s.cache.value.doc, s.now, s.cache.value.latency)])
      else
        s.(cache := None, flights := s.flights[g := Waiting(s.now)])
    case ServerRead(g) =>
      s.(flights := s.flights[g := Read(s.flights[g].startedAt, s.history[|s.history| - 1].doc, s.now)])
    case Answer(g) =>
      var f := s.flights[g];
      var rest := s.(flights := s.flights - {g});
      if f.doc.None? then rest
      else
        var latency := s.now - f.startedAt;
        rest.(cache := Some(Entry(f.doc.value, s.now, f.readAt, latency)),
              served := s.served + [Served(f.doc.value, s.now, latency)])
  }

  /** The document was the stored one at instant t. */
  predicate StoredAt(history: seq<Change>, doc: Option<Document>, t: int) {
    exists i :: 0 <= i < |history| && history[i].doc == doc && history[i].at <= t
                && (i + 1 < |history| ==> t <= history[i + 1].at)
  }

  /** No older than the cache's time to live plus the latency of the fetch that filled it. */
  predicate BoundedStaleness(history: seq<Change>, d: Served) {
    exists t :: d.at - 5000 - d.latency <= t <= d.at && StoredAt(history, Some(d.doc), t)
  }

  predicate FlightOk(s: State, f: Flight) {
    f.startedAt <= s.now && (f.Read? ==> f.startedAt <= f.readAt <= s.now && StoredAt(s.history, f.doc, f.readAt))
  }

  predicate CacheOk(s: State) {
    s.cache.Some? ==>
      var e := s.cache.value;
      e.timestamp - e.latency <= e.readAt <= e.timestamp <= s.now && StoredAt(s.history, Some(e.doc), e.readAt)
  }

  predicate Inv(s: State) {
    && s.history != [] && s.history[|s.history| - 1].at <= s.now
    && CacheOk(s)
    && (forall g :: g in s.flights ==> FlightOk(s, s.flights[g]))
    && (forall i :: 0 <= i < |s.served| ==> s.served[i].at <= s.now && BoundedStaleness(s.history, s.served[i]))
  }

  /** A later write does not change what was stored before it. */
  lemma HistoryExtends(history: seq<Change>, change: Change, doc: Option<Document>, t: int)
    requires StoredAt(history, doc, t) && t <= change.at
    ensures StoredAt(history + [change], doc, t)
  {
    var i :| 0 <= i < |history| && history[i].doc == doc && history[i].at <= t
             && (i + 1 < |history| ==> t <= history[i + 1].at);
    var longer := history + [change];
    assert longer[i] == history[i];
    assert i + 1 < |longer| ==> t <= longer[i + 1].at;
  }

  lemma WriteKeepsInv(s: State, doc: Option<Document>)
    requires Inv(s)
    ensures Inv(Next(s, OutsideWrite(doc)))
  {
    var c := Change(doc, s.now);
    var s' := Next(s, OutsideWrite(doc));
    if s.cache.Some? { HistoryExtends(s.history, c, Some(s.cache.value.doc), s.cache.value.readAt); }
    forall g | g in s'.flights ensures FlightOk(s', s'.flights[g]) {
      assert FlightOk(s, s.flights[g]);
      if s.flights[g].Read? { HistoryExtends(s.history, c, s.flights[g].doc, s.flights[g].readAt); }
    }
    forall i | 0 <= i < |s'.served| ensures BoundedStaleness(s'.history, s'.served[i]) {
      var d := s.served[i];
      var t :| d.at - 5000 - d.latency <= t <= d.at && StoredAt(s.history, Some(d.doc), t);
      HistoryExtends(s.history, c, Some(d.doc), t);
    }
  }

  lemma StepKeepsInv(s: State, step: Step)
    requires Inv(s) && Legal(s, step)
    ensures Inv(Next(s, step))
  {
    match step
    case OutsideWrite(doc) => WriteKeepsInv(s, doc);
    case Answer(g) => assert FlightOk(s, s.flights[g]);
    case ServerRead(g) =>
      var last := |s.history| - 1;
      assert StoredAt(s.history, s.history[last].doc, s.now);
    case _ =>
  }

  predicate LegalRun(s: State, steps: seq<Step>)
    requires s.history != []
    decreases |steps|
  {
    steps == [] || (Legal(s, steps[0]) && LegalRun(Next(s, steps[0]), steps[1..]))
  }

  function Run(s: State, steps: seq<Step>): State
    requires s.history != [] && LegalRun(s, steps)
    decreases |steps|
  {
    if steps == [] then s else Run(Next(s, steps[0]), steps[1..])
  }

  /** Any interleaving of gets, outside writes, invalidations and cleanups: every document served was
      the stored one at some moment within the last 5000 ms plus the latency of its fetch. */
  lemma {:induction false} EveryServedDocumentIsRecent(s: State, steps: seq<Step>)
    requires Inv(s) && LegalRun(s, steps)
    ensures Inv(Run(s, steps))
    ensures var end := Run(s, steps);
            forall i :: 0 <= i < |end.served| ==> BoundedStaleness(end.history, end.served[i])
    decreases |steps|
  {
    if steps != [] {
      StepKeepsInv(s, steps[0]);
      EveryServedDocumentIsRecent(Next(s, steps[0]), steps[1..]);
    }
  }

  function WithoutCleanup(steps: seq<Step>): seq<Step> {
    if steps == [] then []
    else (if steps[0].Cleanup? then [] else [steps[0]]) + WithoutCleanup(steps[1..])
  }

  /** Two processes that agree on everything but a cache entry nobody may use any more. */
  predicate SameButForDeadEntry(a: State, b: State) {
    a == b || (a.cache.None? && b.cache.Some? && !Usable(b.cache.value, b.now) && a == b.(cache := None))
  }

  lemma CleanupStepsAgree(a: State, b: State, step: Step)
    requires a.history != [] && SameButForDeadEntry(a, b) && Legal(a, step)
    ensures step.Cleanup? ==> SameButForDeadEntry(Next(a, step), b)
    ensures Legal(b, step) && SameButForDeadEntry(Next(a, step), Next(b, step))
  {
  }

  /** Cleaning the cache is invisible: with all cleanups left out, the same gets are served the same
      documents at the same times, and the server sees the same reads. */
  lemma {:induction false} CleanupIsInvisible(a: State, b: State, steps: seq<Step>)
    requires a.history != [] && SameButForDeadEntry(a, b) && LegalRun(a, steps)
    ensures LegalRun(b, WithoutCleanup(steps))
    ensures var a', b' := Run(a, steps), Run(b, WithoutCleanup(steps));
            a'.served == b'.served && a'.flights == b'.flights && a'.history == b'.history
    decreases |steps|
  {
    if steps != [] {
      CleanupStepsAgree(a, b, steps[0]);
      if steps[0].Cleanup? {
        CleanupIsInvisible(Next(a, steps[0]), b, steps[1..]);
        assert WithoutCleanup(steps) == WithoutCleanup(steps[1..]);
      } else {
        CleanupIsInvisible(Next(a, steps[0]), Next(b, steps[0]), steps[1..]);
        assert WithoutCleanup(steps)[0] == steps[0];
        assert WithoutCleanup(steps)[1..] == WithoutCleanup(steps[1..]);
      }
    }
  }

  // ----- the store's gets are such runs -----

  /** The class's cache entry of a session, without the two instants it does not store. */
  predicate Mirrors(store: MongoAuthStore, id: SessionId, s: State)
    reads store`documentCache
  {
    && (id in store.documentCache <==> s.cache.Some?)
    && (s.cache.Some? ==> store.documentCache[id] == CacheEntry(s.cache.value.doc, s.cache.value.timestamp))
  }

  /** The steps of one get that looks up at `lookupAt`, is read by the server at `readAt` and answered at `filledAt`. */
  function AfterGet(s: State, g: nat, lookupAt: int, readAt: int, filledAt: int): State
    requires s.history != [] && g !in s.flights && s.now <= lookupAt <= readAt <= filledAt
  {
    var looked := Next(Next(s, Tick(lookupAt)), Lookup(g));
    if g !in looked.flights then looked
    else Next(Next(Next(Next(looked, Tick(readAt)), ServerRead(g)), Tick(filledAt)), Answer(g))
  }

  lemma AfterGetKeepsInv(s: State, g: nat, lookupAt: int, readAt: int, filledAt: int)
    requires Inv(s) && g !in s.flights && s.now <= lookupAt <= readAt <= filledAt
    ensures Inv(AfterGet(s, g, lookupAt, readAt, filledAt))
  {
    assert s.history != [];
    hide Inv;
    var s1 := Next(s, Tick(lookupAt));
    var looked := Next(s1, Lookup(g));
    StepKeepsInv(s, Tick(lookupAt));
    StepKeepsInv(s1, Lookup(g));
    if g in looked.flights {
      var s2 := Next(looked, Tick(readAt));
      var s3 := Next(s2, ServerRead(g));
      var s4 := Next(s3, Tick(filledAt));
      StepKeepsInv(looked, Tick(readAt));
      StepKeepsInv(s2, ServerRead(g));
      StepKeepsInv(s3, Tick(filledAt));
      StepKeepsInv(s4, Answer(g));
    }
  }

  lemma AfterGetServes(s: State, g: nat, lookupAt: int, readAt: int, filledAt: int)
    requires s.history != [] && g !in s.flights && s.now <= lookupAt <= readAt <= filledAt
    ensures var end := AfterGet(s, g, lookupAt, readAt, filledAt);
            var stored := s.history[|s.history| - 1].doc;
            var cached := s.cache.Some? && lookupAt - s.cache.value.timestamp <= 5000;
            && end.history == s.history && end.flights == s.flights
            && end.now == (if cached then lookupAt else filledAt)
            && end.cache == (if cached then s.cache
                             else if stored.None? then None
                             else Some(Entry(stored.value, filledAt, readAt, filledAt - lookupAt)))
            && end.served == s.served + if cached then [Served(s.cache.value.doc, lookupAt, s.cache.value.latency)]
                                        else if stored.None? then []
                                        else [Served(stored.value, filledAt, filledAt - lookupAt)]
  {
  }

  /** A get of the store does what the steps do: what it serves was stored within the last 5000 ms and the latency of
      its fetch, and a document cached longer ago is not served but read again. */
  method GetRefinesTheSteps(store: MongoAuthStore, id: SessionId, ghost s: State, ghost g: nat, lookupAt: int,
      ghost readAt: int, filledAt: int, stored: Option<Document>)
    returns (r: Result<Option<Versioned>>)
    requires store.connected && Mirrors(store, id, s) && Inv(s) && g !in s.flights
    requires s.now <= lookupAt <= readAt <= filledAt && stored == s.history[|s.history| - 1].doc
    modifies store`documentCache
    ensures var end := AfterGet(s, g, lookupAt, readAt, filledAt);
            && Mirrors(store, id, end) && Inv(end)
            && (if s.cache.Some? && lookupAt - s.cache.value.timestamp <= 5000
                then r == ReadDocument(Some(s.cache.value.doc)) && |end.served| == |s.served| + 1
                     && end.served[|s.served|] == Served(s.cache.value.doc, lookupAt, s.cache.value.latency)
                else r == ReadDocument(stored))
            && (|end.served| > |s.served| ==> BoundedStaleness(end.history, end.served[|s.served|]))
  {
    AfterGetKeepsInv(s, g, lookupAt, readAt, filledAt);
    AfterGetServes(s, g, lookupAt, readAt, filledAt);
    hide AfterGet;
    hide BoundedStaleness;
    hide ReadDocument;
    r := store.Get(id, lookupAt, Moment(stored, Healthy), filledAt);
  }

  /** A set of this process that succeeds while nobody else writes is an outside write and an invalidation. */
  method SetRefinesTheSteps(store: MongoAuthStore, id: SessionId, ghost s: State, patch: AuthPatch,
      expected: Option<int>, fencingToken: Option<int>, now: int, env: nat -> Moment)
    returns (r: Result<int>)
    requires store.connected && Mirrors(store, id, s) && s.history != []
    modifies store`collection, store`documentCache
    ensures r.Ok? ==>
      && id in store.collection
      && var end := Next(Next(s, OutsideWrite(Some(store.collection[id]))), Invalidate);
         Mirrors(store, id, end) && end.cache.None? && end.history[|end.history| - 1].doc == Some(store.collection[id])
  {
    hide SetOutcome;
    hide UpdatesOf;
    var answer, _, _ := store.Set(id, patch, expected, fencingToken, now, env);
    r := answer;
  }

  /** Two gets in a row, the first one from the server: 5000 ms after it filled the cache, and no later, the second
      one is answered with the same document, whatever the server holds by then. */
  method GetTwice(store: MongoAuthStore, id: SessionId, at: int, first: Moment, filledAt: int,
      later: int, second: Moment, refilledAt: int)
    returns (r: Result<Option<Versioned>>)
    requires store.connected && id !in store.documentCache && first.fault == Healthy && first.stored.Some?
    modifies store`documentCache
    ensures r == if later - filledAt <= 5000 then ReadDocument(first.stored)
                 else if second.fault == Healthy then ReadDocument(second.stored) else Err(StorageFailure)
    ensures store.documentCache - {id} == old(store.documentCache) - {id}
  {
    var _ := store.Get(id, at, first, filledAt);
    r := store.Get(id, later, second, refilledAt);
  }

  // ----- a process's own writes -----

  predicate NoWrites(steps: seq<Step>) {
    forall i :: 0 <= i < |steps| ==> !steps[i].OutsideWrite?
  }

  /** A get that starts in this state is served another document from the cache. */
  predicate ServesOther(s: State, d: Document) {
    s.cache.Some? && Usable(s.cache.value, s.now) && s.cache.value.doc != d
  }

  /** At some later time, with no write in between, a get that starts then is served another document. */
  ghost predicate MayServeOther(s: State, d: Document)
    requires s.history != []
  {
    exists steps :: LegalRun(s, steps) && NoWrites(steps) && ServesOther(Run(s, steps), d)
  }

  /** Neither the cache nor an answer on its way holds another document. */
  predicate OnlyHolds(s: State, d: Document) {
    && s.history != [] && s.history[|s.history| - 1].doc == Some(d)
    && (s.cache.Some? ==> s.cache.value.doc == d)
    && (forall g :: g in s.flights && s.flights[g].Read? && s.flights[g].doc.Some? ==> s.flights[g].doc.value == d)
  }

  lemma {:induction false} OnlyItIsServed(s: State, d: Document, steps: seq<Step>)
    requires OnlyHolds(s, d) && LegalRun(s, steps) && NoWrites(steps)
    ensures !ServesOther(Run(s, steps), d)
    decreases |steps|
  {
    if steps != [] {
      OnlyItIsServed(Next(s, steps[0]), d, steps[1..]);
    }
  }

  /** Reading one's own writes, exactly: once a write of this process is done, every get that starts afterwards is
      served the new document, as long as nobody writes again, if and only if no older get is under way that has read
      another document and not answered yet. Such a get fills the cache with what it read. */
  lemma OwnWriteIsSeenExactlyWhenNoOldReadIsUnderWay(s: State, d: Document)
    requires s.history != []
    ensures var written := Next(Next(s, OutsideWrite(Some(d))), Invalidate);
            !MayServeOther(written, d) <==>
              forall g :: g in s.flights && s.flights[g].Read? && s.flights[g].doc.Some? ==> s.flights[g].doc.value == d
  {
    var written := Next(Next(s, OutsideWrite(Some(d))), Invalidate);
    if g :| g in s.flights && s.flights[g].Read? && s.flights[g].doc.Some? && s.flights[g].doc.value != d {
      var steps: seq<Step> := [Answer(g)];
      var end := Next(written, Answer(g));
      assert steps[0] == Answer(g) && steps[1..] == [] && LegalRun(end, []) && Run(end, []) == end;
      assert LegalRun(written, steps) && NoWrites(steps) && Run(written, steps) == end;
      assert ServesOther(end, d);
    } else {
      forall steps | LegalRun(written, steps) && NoWrites(steps) ensures !ServesOther(Run(written, steps), d) {
        OnlyItIsServed(written, d, steps);
      }
    }
  }
}
