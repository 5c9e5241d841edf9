/** The Mongo document of a session: versioned upserts, the duplicate-key retry loop, the document cache. */
module MongoStore {
  import opened AuthTypes
  import opened Backoff

  /** A stored document; times are in milliseconds. */
  datatype Document = Document(
    version: int, creds: Option<string>, keys: Option<KeyTable>, appState: Option<string>,
    fencingToken: Option<int>, updatedAt: int, createdAt: int, expiresAt: int)

  /** The $set part of an upsert: a field that is None is not named. */
  datatype Updates = Updates(
    version: int, creds: Option<string>, keys: Option<KeyTable>, appState: Option<string>,
    fencingToken: Option<int>, updatedAt: int, expiresAt: int)

  function UpdatesOf(patch: AuthPatch, expected: Option<int>, fencingToken: Option<int>, now: int, ttlSeconds: int)
    : Updates
  {
    Updates(NextVersion(expected), patch.creds, patch.keys, patch.appState, fencingToken, now, now + ttlSeconds * 1000)
  }

  /** $set on an existing document: named fields are replaced whole, the others stay. */
  function Replace(doc: Document, u: Updates): Document {
    Document(u.version, OrElse(u.creds, doc.creds), OrElse(u.keys, doc.keys), OrElse(u.appState, doc.appState),
             OrElse(u.fencingToken, doc.fencingToken), u.updatedAt, doc.createdAt, u.expiresAt)
  }

  /** $set and $setOnInsert on a new document. */
  function Insert(u: Updates): Document {
    Document(u.version, u.creds, u.keys, u.appState, u.fencingToken, u.updatedAt, u.updatedAt, u.expiresAt)
  }

  function Upserted(stored: Option<Document>, u: Updates): Document {
    if stored.Some? then Replace(stored.value, u) else Insert(u)
  }

  /** What the server says to one findOneAndUpdate. */
  datatype Reply = Stored(doc: Document) | DuplicateKey | Failed

  /** The document as other writers left it when a command arrives, and what goes wrong with the
      command: a lost insert race answers E11000, an unreachable server answers some other error. */
  datatype Fault = Healthy | LostRace | Unreachable
  datatype Moment = Moment(stored: Option<Document>, fault: Fault)

  /** An atomic upsert under the filter version <= atMost: a document that exists and does not match is
      inserted again, and its _id collides. */
  function FindOneAndUpdate(m: Moment, atMost: Option<int>, u: Updates): Reply {
    match m.fault
    case LostRace => DuplicateKey
    case Unreachable => Failed
    case Healthy =>
      if m.stored.Some? && atMost.Some? && m.stored.value.version > atMost.value then DuplicateKey
      else Stored(Upserted(m.stored, u))
  }

  /** How a set call ends: how many upserts it sent and the last reply. */
  datatype Outcome = Outcome(calls: nat, reply: Reply)

  /** The retry loop from `attempt` on: only a duplicate key is retried, and then without the version test. */
  function SetOutcome(env: nat -> Moment, atMost: Option<int>, u: Updates, attempt: nat, maxRetries: nat): (o: Outcome)
    requires attempt <= maxRetries + 1
    ensures attempt < o.calls <= maxRetries + 2
    decreases maxRetries + 1 - attempt
  {
    var reply := FindOneAndUpdate(env(attempt), if attempt == 0 then atMost else None, u);
    if reply == DuplicateKey && attempt <= maxRetries then SetOutcome(env, atMost, u, attempt + 1, maxRetries)
    else Outcome(attempt + 1, reply)
  }

  /** What a finished set means, for any behaviour of the other writers and of the server: a success
      stores expectedVersion + 1 over the document found last, keeps every unnamed field, renews the expiry,
      and writes createdAt only when it inserts; so the stored version never differs from the one asked for. */
  lemma {:induction false} SuccessStoresTheNextVersion(env: nat -> Moment, patch: AuthPatch, expected: Option<int>,
      fencingToken: Option<int>, now: int, ttl: int, attempt: nat, maxRetries: nat)
    requires attempt <= maxRetries + 1
    ensures var u := UpdatesOf(patch, expected, fencingToken, now, ttl);
            var o := SetOutcome(env, expected, u, attempt, maxRetries);
            o.reply.Stored? ==>
              && o.reply.doc.version == GetOr(expected, 0) + 1
              && o.reply.doc.updatedAt == now && o.reply.doc.expiresAt == now + ttl * 1000
              && var before := env(o.calls - 1).stored;
              && (before.None? ==>
                    && o.reply.doc.createdAt == now
                    && o.reply.doc.creds == patch.creds && o.reply.doc.keys == patch.keys
                    && o.reply.doc.appState == patch.appState && o.reply.doc.fencingToken == fencingToken)
              && (before.Some? ==>
                    && o.reply.doc.createdAt == before.value.createdAt
                    && (patch.creds.None? ==> o.reply.doc.creds == before.value.creds)
                    && (patch.keys.None? ==> o.reply.doc.keys == before.value.keys)
                    && (patch.appState.None? ==> o.reply.doc.appState == before.value.appState)
                    && (fencingToken.None? ==> o.reply.doc.fencingToken == before.value.fencingToken))
              && (patch.creds.Some? ==> o.reply.doc.creds == patch.creds)
              && (patch.keys.Some? ==> o.reply.doc.keys == patch.keys)
              && (patch.appState.Some? ==> o.reply.doc.appState == patch.appState)
              && (fencingToken.Some? ==> o.reply.doc.fencingToken == fencingToken)
    decreases maxRetries + 1 - attempt
  {
    var u := UpdatesOf(patch, expected, fencingToken, now, ttl);
    var reply := FindOneAndUpdate(env(attempt), if attempt == 0 then expected else None, u);
    if reply == DuplicateKey && attempt <= maxRetries {
      SuccessStoresTheNextVersion(env, patch, expected, fencingToken, now, ttl, attempt + 1, maxRetries);
    }
  }

  /** The upsert finds its session's document newer than the version it expects. */
  predicate Stale(m: Moment, expected: Option<int>) {
    m.stored.Some? && expected.Some? && m.stored.value.version > expected.value
  }

  /** When the retry loop goes on and how it ends, exactly: every upsert but the last met a duplicate key, by a lost
      insert race or, the first one, by a newer document; the last one is stored if and only if the server was
      healthy and it was no first one over a newer document; any other error ends the loop at once, and duplicate
      keys only after maxRetries + 1 retries. */
  lemma {:induction false} HowASetEnds(env: nat -> Moment, expected: Option<int>, u: Updates, attempt: nat,
      maxRetries: nat)
    requires attempt <= maxRetries + 1
    ensures var o := SetOutcome(env, expected, u, attempt, maxRetries);
            var last := env(o.calls - 1);
            && (forall i :: attempt <= i < o.calls - 1 ==>
                  env(i).fault == LostRace || (env(i).fault == Healthy && i == 0 && Stale(env(i), expected)))
            && (o.reply.Stored? <==> last.fault == Healthy && !(o.calls == 1 && Stale(last, expected)))
            && (o.reply == Failed <==> last.fault == Unreachable)
            && (o.reply == DuplicateKey ==> o.calls == maxRetries + 2)
    decreases maxRetries + 1 - attempt
  {
    var reply := FindOneAndUpdate(env(attempt), if attempt == 0 then expected else None, u);
    if reply == DuplicateKey && attempt <= maxRetries {
      HowASetEnds(env, expected, u, attempt + 1, maxRetries);
    }
  }

  /** Whatever happens, a set sends at most maxRetries + 2 upserts and waits at most the first
      maxRetries + 1 delays, whose sum has the geometric closed form. */
  lemma SetWaitIsBounded(
    env: nat -> Moment, atMost: Option<int>, u: Updates, maxRetries: nat, base: real, multiplier: real)
    requires base >= 0.0 && multiplier >= 0.0
    ensures var o := SetOutcome(env, atMost, u, 0, maxRetries);
            && o.calls <= maxRetries + 2
            && DelaySum(base, multiplier, o.calls - 1) <= DelaySum(base, multiplier, maxRetries + 1)
    ensures (multiplier - 1.0) * DelaySum(base, multiplier, maxRetries + 1)
         == base * (Pow(multiplier, maxRetries + 1) - 1.0)
  {
    hide Pow;
    hide Delay;
    hide DelaySum;
    var o := SetOutcome(env, atMost, u, 0, maxRetries);
    DelaySumMonotone(base, multiplier, o.calls - 1, maxRetries + 1);
    DelaySumClosedForm(base, multiplier, maxRetries + 1);
  }

  /** Nobody else writes and the server answers. */
  function Quiet(stored: Option<Document>): nat -> Moment {
    _ => Moment(stored, Healthy)
  }

  /** Optimistic locking, as it works out: without faults every set succeeds and overwrites. A stale
      expected version costs a second upsert, and that is all it does. */
  lemma StaleWritesWin(stored: Option<Document>, expected: Option<int>, u: Updates, maxRetries: nat)
    ensures var o := SetOutcome(Quiet(stored), expected, u, 0, maxRetries);
            && o.reply == Stored(Upserted(stored, u))
            && o.calls == if stored.Some? && expected.Some? && stored.value.version > expected.value then 2 else 1
  {
    assert SetOutcome(Quiet(stored), expected, u, 1, maxRetries) == Outcome(2, Stored(Upserted(stored, u)));
  }

  /** The document as a snapshot; a document without creds cannot be deserialised. */
  function Deserialize(doc: Document): Option<Versioned> {
    if doc.creds.None? then None
    else Some(Versioned(AuthSnapshot(doc.creds.value, GetOr(doc.keys, map[]), doc.appState), doc.version))
  }

  /** A get of one document: missing is a value, an undecodable document is a failure. */
  function ReadDocument(doc: Option<Document>): Result<Option<Versioned>> {
    if doc.None? then Ok(None)
    else if Deserialize(doc.value).None? then Err(StorageFailure)
    else Ok(Deserialize(doc.value))
  }

  /** What a set stored reads back: the patch over the fields that were there, or an error as long as no creds were
      ever written. */
  lemma StoredPatchReadsBack(before: Option<Document>, patch: AuthPatch, expected: Option<int>, token: Option<int>,
      now: int, ttl: int)
    ensures var doc := Upserted(before, UpdatesOf(patch, expected, token, now, ttl));
            var creds := if patch.creds.None? && before.Some? then before.value.creds else patch.creds;
            var keys := if patch.keys.None? && before.Some? then before.value.keys else patch.keys;
            var appState := if patch.appState.None? && before.Some? then before.value.appState else patch.appState;
            ReadDocument(Some(doc)) ==
              if creds.None? then Err(StorageFailure)
              else Ok(Some(Versioned(
                AuthSnapshot(creds.value, if keys.Some? then keys.value else map[], appState), GetOr(expected, 0) + 1)))
    ensures ReadDocument(None) == Ok(None)
  {
  }

  function Put(collection: map<SessionId, Document>, id: SessionId, doc: Option<Document>): map<SessionId, Document> {
    if doc.Some? then collection[id := doc.value] else collection - {id}
  }

  function Find(collection: map<SessionId, Document>, id: SessionId): Option<Document> {
    if id in collection then Some(collection[id]) else None
  }

  const CACHE_TTL := 5000

  datatype CacheEntry = CacheEntry(doc: Document, timestamp: int)

  /** The entry a lookup at `now` may serve. */
  function Fresh(cache: map<SessionId, CacheEntry>, id: SessionId, now: int): Option<Document> {
    if id in cache && now - cache[id].timestamp <= CACHE_TTL then Some(cache[id].doc) else None
  }

  class MongoAuthStore {
    var collection: map<SessionId, Document> // shared with every other process
    var documentCache: map<SessionId, CacheEntry>
    var connected: bool
    const ttlSeconds: int
    const maxRetries: nat
    const baseDelay: real
    const multiplier: real

    constructor (ttlSeconds: int, maxRetries: nat, baseDelay: real, multiplier: real)
      ensures collection == map[] && documentCache == map[] && !connected
      ensures this.ttlSeconds == ttlSeconds && this.maxRetries == maxRetries
      ensures this.baseDelay == baseDelay && this.multiplier == multiplier
    {
      this.ttlSeconds, this.maxRetries := ttlSeconds, maxRetries;
      this.baseDelay, this.multiplier := baseDelay, multiplier;
      collection, documentCache, connected := map[], map[], false;
    }

    method GetFromCache(id: SessionId, now: int) returns (r: Option<Document>)
      modifies this`documentCache
      ensures r == Fresh(old(documentCache), id, now)
      ensures documentCache == if r.None? then old(documentCache) - {id} else old(documentCache)
    {
      if id !in documentCache {
        return None;
      }
      var entry := documentCache[id];
      if now - entry.timestamp > CACHE_TTL {
        documentCache := documentCache - {id};
        return None;
      }
      r := Some(entry.doc);
    }

    /** Drops every entry past its time, in any order. */
    method CleanupCache(now: int)
      modifies this`documentCache
      ensures documentCache == map id | id in old(documentCache) && now - old(documentCache)[id].timestamp <= CACHE_TTL
                                 :: old(documentCache)[id]
    {
      var ids := documentCache.Keys;
      while ids != {}
        invariant ids <= old(documentCache).Keys
        invariant documentCache == map id | id in old(documentCache)
                                     && (id in ids || now - old(documentCache)[id].timestamp <= CACHE_TTL)
                                     :: old(documentCache)[id]
        decreases ids
      {
        var id :| id in ids;
        if now - documentCache[id].timestamp > CACHE_TTL {
          documentCache := documentCache - {id};
        }
        ids := ids - {id};
      }
    }

    /** `lookupAt` is when the cache is consulted, `found` what findOne returns and `filledAt` when its
        answer is put into the cache. */
    method Get(id: SessionId, lookupAt: int, found: Moment, filledAt: int) returns (r: Result<Option<Versioned>>)
      modifies this`documentCache
      ensures var cached := Fresh(old(documentCache), id, lookupAt);
              if !connected then r == Err(NotConnected) && documentCache == old(documentCache)
              else if cached.Some? then r == ReadDocument(cached) && documentCache == old(documentCache)
              else if found.fault != Healthy then r == Err(StorageFailure) && documentCache == old(documentCache) - {id}
              else && r == ReadDocument(found.stored)
                   && documentCache == if found.stored.None? then old(documentCache) - {id}
                                       else old(documentCache)[id := CacheEntry(found.stored.value, filledAt)]
    {
      if !connected { return Err(NotConnected); }
      var cached := GetFromCache(id, lookupAt);
      if cached.Some? {
        return ReadDocument(cached);
      }
      if found.fault != Healthy { return Err(StorageFailure); }
      if found.stored.None? { return Ok(None); }
      documentCache := documentCache[id := CacheEntry(found.stored.value, filledAt)];
      r := ReadDocument(found.stored);
    }

    /** `env(i)` is the moment upsert number i reaches the server. */
    method Set(id: SessionId, patch: AuthPatch, expected: Option<int>, fencingToken: Option<int>, now: int,
        env: nat -> Moment)
      returns (r: Result<int>, calls: nat, slept: real)
      modifies this`collection, this`documentCache
      ensures !connected ==>
        && r == Err(NotConnected) && calls == 0 && slept == 0.0
        && collection == old(collection) && documentCache == old(documentCache)
      ensures connected ==>
        var o := SetOutcome(env, expected, UpdatesOf(patch, expected, fencingToken, now, ttlSeconds), 0, maxRetries);
        && calls == o.calls && 1 <= calls <= maxRetries + 2
        && slept == DelaySum(baseDelay, multiplier, calls - 1)
        && r == (if o.reply.Stored? then Ok(NextVersion(expected)) else Err(StorageFailure))
        && collection == Put(old(collection), id, if o.reply.Stored? then Some(o.reply.doc) else env(calls - 1).stored)
        && documentCache == if r.Ok? then old(documentCache) - {id} else old(documentCache)
    {
      calls, slept := 0, 0.0;
      if !connected { return Err(NotConnected), calls, slept; }
      var newVersion := (if expected.Some? then expected.value else 0) + 1;
      var expiresAt := now + ttlSeconds * 1000;
      var updates := Updates(newVersion, patch.creds, patch.keys, patch.appState, fencingToken, now, expiresAt);
      var filter := expected;
      var result: Option<Document> := None;
      var attempt := 0;
      while true
        invariant attempt == calls <= maxRetries + 1 && result == None
        invariant collection == old(collection) && documentCache == old(documentCache)
        invariant filter == if attempt == 0 then expected else None
        invariant SetOutcome(env, expected, updates, attempt, maxRetries)
               == SetOutcome(env, expected, updates, 0, maxRetries)
        invariant slept == DelaySum(baseDelay, multiplier, calls)
        decreases maxRetries + 1 - attempt
      {
        var reply := FindOneAndUpdate(env(attempt), filter, updates);
        calls := calls + 1;
        if reply.Stored? {
          result := Some(reply.doc);
          break;
        }
        if reply == DuplicateKey && attempt <= maxRetries {
          slept := slept + Delay(baseDelay, multiplier, attempt);
          attempt := attempt + 1;
          filter := None;
          continue;
        }
        break;
      }
      // the session's document is now this call's, or what the other writers left
      collection := Put(collection, id, if result.Some? then result else env(calls - 1).stored);
      if result.None? { return Err(StorageFailure), calls, slept; }
      assert result.value.version == newVersion; // the VersionMismatchError branch is never taken
      documentCache := documentCache - {id};
      r := Ok(newVersion);
    }

    method Delete(id: SessionId, fault: Fault) returns (r: Result<()>)
      modifies this`collection, this`documentCache
      ensures r == if !connected then Err(NotConnected) else if fault != Healthy then Err(StorageFailure) else Ok(())
      ensures collection == if r.Ok? then old(collection) - {id} else old(collection)
      ensures documentCache == if r.Ok? then old(documentCache) - {id} else old(documentCache)
    {
      if !connected { return Err(NotConnected); }
      if fault != Healthy { return Err(StorageFailure); }
      collection := collection - {id};
      documentCache := documentCache - {id};
      r := Ok(());
    }
  }
}
