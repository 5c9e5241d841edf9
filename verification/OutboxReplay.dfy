/** What the Mongo document becomes when outbox entries of one session are written to it. */
module OutboxReplay {
  import opened AuthTypes
  import opened MongoStore
  import opened Outbox

  function EntryUpdates(e: PendingEntry, now: int, ttl: int): Updates {
    UpdatesOf(e.entry.patch, Some(e.version - 1), e.entry.fencingToken, now, ttl)
  }

  /** The Mongo write of one entry, by a reconciler nobody races with; `now` is when it takes effect. */
  function EntryOutcome(doc: Option<Document>, e: PendingEntry, now: int, ttl: int, maxRetries: nat): Outcome {
    SetOutcome(Quiet(doc), Some(e.version - 1), EntryUpdates(e, now, ttl), 0, maxRetries)
  }

  /** The document after the entries took effect in the order of the sequence. */
  function Replay(doc: Option<Document>, es: seq<PendingEntry>, times: nat -> int, ttl: int, maxRetries: nat)
    : Option<Document>
    decreases |es|
  {
    if es == [] then doc
    else
      var n := |es| - 1;
      var before := Replay(doc, es[..n], times, ttl, maxRetries);
      var o := EntryOutcome(before, es[n], times(n), ttl, maxRetries);
      if o.reply.Stored? then Some(o.reply.doc) else before
  }

  // The fields an entry may name.
  function Creds(e: PendingEntry): Option<string> { e.entry.patch.creds }
  function Keys(e: PendingEntry): Option<KeyTable> { e.entry.patch.keys }
  function AppState(e: PendingEntry): Option<string> { e.entry.patch.appState }
  function Token(e: PendingEntry): Option<int> { e.entry.fencingToken }

  function CredsIn(doc: Option<Document>): Option<string> { if doc.Some? then doc.value.creds else None }
  function KeysIn(doc: Option<Document>): Option<KeyTable> { if doc.Some? then doc.value.keys else None }
  function AppStateIn(doc: Option<Document>): Option<string> { if doc.Some? then doc.value.appState else None }
  function TokenIn(doc: Option<Document>): Option<int> { if doc.Some? then doc.value.fencingToken else None }

  /** The entry naming a field that took effect last. */
  function LastNaming<T>(es: seq<PendingEntry>, field: PendingEntry -> Option<T>): Option<PendingEntry>
    decreases |es|
  {
    if es == [] then None
    else if field(es[|es| - 1]).Some? then Some(es[|es| - 1])
    else LastNaming(es[..|es| - 1], field)
  }

  /** The value that entry gives the field, else the one the field had. */
  function LastNamed<T>(initial: Option<T>, es: seq<PendingEntry>, field: PendingEntry -> Option<T>): Option<T> {
    var e := LastNaming(es, field);
    if e.Some? then field(e.value) else initial
  }

  lemma LastNamedStep<T>(initial: Option<T>, es: seq<PendingEntry>, field: PendingEntry -> Option<T>)
    requires es != []
    ensures LastNamed(initial, es, field)
         == OrElse(field(es[|es| - 1]), LastNamed(initial, es[..|es| - 1], field))
  {
  }

  /** Whatever the order, each field ends as the last entry that named it left it, and the version is
      the last applied entry's: replay is last writer wins, not highest version wins. */
  lemma {:induction false} ReplayIsLastWriterWins(
    doc: Option<Document>, es: seq<PendingEntry>, times: nat -> int, ttl: int, maxRetries: nat)
    requires es != []
    ensures var end := Replay(doc, es, times, ttl, maxRetries);
            && end.Some?
            && end.value.version == es[|es| - 1].version
            && end.value.creds == LastNamed(CredsIn(doc), es, Creds)
            && end.value.keys == LastNamed(KeysIn(doc), es, Keys)
            && end.value.appState == LastNamed(AppStateIn(doc), es, AppState)
            && end.value.fencingToken == LastNamed(TokenIn(doc), es, Token)
            && end.value.createdAt == if doc.Some? then doc.value.createdAt else times(0)
    decreases |es|
  {
    var n := |es| - 1;
    var front := es[..n];
    var before := Replay(doc, front, times, ttl, maxRetries);
    StaleWritesWin(before, Some(es[n].version - 1), EntryUpdates(es[n], times(n), ttl), maxRetries);
    LastNamedStep(CredsIn(doc), es, Creds);
    LastNamedStep(KeysIn(doc), es, Keys);
    LastNamedStep(AppStateIn(doc), es, AppState);
    LastNamedStep(TokenIn(doc), es, Token);
    if front != [] {
      ReplayIsLastWriterWins(doc, front, times, ttl, maxRetries);
    }
  }

  /** In the ascending order `getPendingEntries` returns, over a document older than the first entry, no
      write meets a duplicate key and each one raises the stored version. */
  lemma {:induction false} InOrderReplayNeverCollides(
    doc: Option<Document>, es: seq<PendingEntry>, times: nat -> int, ttl: int, maxRetries: nat, k: nat)
    requires Ascending(es) && k < |es|
    requires doc.Some? ==> doc.value.version < es[0].version
    ensures var before := Replay(doc, es[..k], times, ttl, maxRetries);
            && EntryOutcome(before, es[k], times(k), ttl, maxRetries).calls == 1
            && (before.Some? ==> before.value.version < es[k].version)
            && Replay(doc, es[..k + 1], times, ttl, maxRetries).Some?
            && Replay(doc, es[..k + 1], times, ttl, maxRetries).value.version == es[k].version
  {
    var before := Replay(doc, es[..k], times, ttl, maxRetries);
    StaleWritesWin(before, Some(es[k].version - 1), EntryUpdates(es[k], times(k), ttl), maxRetries);
    assert es[..k + 1][..k] == es[..k];
    if k > 0 {
      ReplayIsLastWriterWins(doc, es[..k], times, ttl, maxRetries);
      assert es[..k][k - 1] == es[k - 1];
    }
    ReplayIsLastWriterWins(doc, es[..k + 1], times, ttl, maxRetries);
  }

  // ----- out of order -----

  /** An entry with the highest version among those that name a field; order plays no part. */
  predicate Newest<T>(es: seq<PendingEntry>, field: PendingEntry -> Option<T>, e: PendingEntry) {
    e in es && field(e).Some? && forall x :: x in es && field(x).Some? ==> x.version <= e.version
  }

  /** The last entry to name the field, if any does, gives it the value the newest one gives. */
  predicate EndsNewest<T(==)>(es: seq<PendingEntry>, field: PendingEntry -> Option<T>) {
    var last := LastNaming(es, field);
    last.Some? ==> exists e :: e in es && Newest(es, field, e) && field(e) == field(last.value)
  }

  /** The same entries in another order. */
  predicate SameEntries(a: seq<PendingEntry>, b: seq<PendingEntry>) {
    (forall e :: e in a ==> e in b) && (forall e :: e in b ==> e in a)
  }

  lemma {:induction false} LastNamingNamesIt<T>(es: seq<PendingEntry>, field: PendingEntry -> Option<T>)
    ensures var last := LastNaming(es, field);
            && (last.Some? ==> last.value in es && field(last.value).Some?)
            && (last.None? ==> forall e :: e in es ==> field(e).None?)
    decreases |es|
  {
    if es != [] {
      var n := |es| - 1;
      LastNamingNamesIt(es[..n], field);
      assert forall e :: e in es ==> e in es[..n] || e == es[n];
    }
  }

  /** In ascending order the last entry to name a field is the newest. */
  lemma {:induction false} AscendingEndsNewest<T>(es: seq<PendingEntry>, field: PendingEntry -> Option<T>)
    requires Ascending(es) && LastNaming(es, field).Some?
    ensures Newest(es, field, LastNaming(es, field).value)
    decreases |es|
  {
    var n := |es| - 1;
    assert forall e :: e in es ==> e in es[..n] || e == es[n];
    if field(es[n]).None? {
      AscendingEndsNewest(es[..n], field);
    } else {
      forall x | x in es ensures x.version <= es[n].version {
        var i :| 0 <= i < |es| && es[i] == x;
      }
    }
  }

  lemma VersionsTellEntriesApart(es: seq<PendingEntry>, a: PendingEntry, b: PendingEntry)
    requires Ascending(es) && a in es && b in es && a.version == b.version
    ensures a == b
  {
    var i :| 0 <= i < |es| && es[i] == a;
    var j :| 0 <= j < |es| && es[j] == b;
  }

  /** One field: the orders agree on it exactly when the other order, too, ends with the newest value. */
  lemma FieldAgreesExactlyWhenNewest<T>(
    initial: Option<T>, es: seq<PendingEntry>, other: seq<PendingEntry>, field: PendingEntry -> Option<T>)
    requires Ascending(es) && SameEntries(es, other)
    ensures LastNamed(initial, other, field) == LastNamed(initial, es, field) <==> EndsNewest(other, field)
  {
    LastNamingNamesIt(es, field);
    LastNamingNamesIt(other, field);
    var last := LastNaming(other, field);
    if last.Some? {
      var best := LastNaming(es, field).value;
      AscendingEndsNewest(es, field);
      assert Newest(other, field, best);
      forall e | e in other && Newest(other, field, e) ensures e == best {
        VersionsTellEntriesApart(es, e, best);
      }
    }
  }

  /** The same session, apart from the instants at which the writes happened. */
  predicate SameDocument(a: Option<Document>, b: Option<Document>) {
    a.Some? && b.Some? && a.value.version == b.value.version
    && a.value.creds == b.value.creds && a.value.keys == b.value.keys
    && a.value.appState == b.value.appState && a.value.fencingToken == b.value.fencingToken
  }

  /** Order matters exactly so far: replaying the entries in any other order, as ten workers at once may do,
      ends in the document of the ascending replay if and only if the newest entry is applied last and, field by
      field, the last entry to name it gives the value the newest one does. */
  lemma AnyOrderAgreesExactlyWhenFieldsEndNewest(
    doc: Option<Document>, es: seq<PendingEntry>, other: seq<PendingEntry>,
    times: nat -> int, otherTimes: nat -> int, ttl: int, maxRetries: nat)
    requires es != [] && Ascending(es) && SameEntries(es, other)
    ensures SameDocument(Replay(doc, other, otherTimes, ttl, maxRetries), Replay(doc, es, times, ttl, maxRetries))
       <==> && other != [] && other[|other| - 1] == es[|es| - 1]
            && EndsNewest(other, Creds) && EndsNewest(other, Keys)
            && EndsNewest(other, AppState) && EndsNewest(other, Token)
  {
    assert es[0] in other;
    ReplayIsLastWriterWins(doc, es, times, ttl, maxRetries);
    ReplayIsLastWriterWins(doc, other, otherTimes, ttl, maxRetries);
    FieldAgreesExactlyWhenNewest(CredsIn(doc), es, other, Creds);
    FieldAgreesExactlyWhenNewest(KeysIn(doc), es, other, Keys);
    FieldAgreesExactlyWhenNewest(AppStateIn(doc), es, other, AppState);
    FieldAgreesExactlyWhenNewest(TokenIn(doc), es, other, Token);
    var last, best := other[|other| - 1], es[|es| - 1];
    assert last in es;
    if last.version == best.version {
      VersionsTellEntriesApart(es, last, best);
    }
  }
}
