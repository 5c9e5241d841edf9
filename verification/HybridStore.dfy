/** The hybrid store: Redis first, Mongo behind it, an outbox between them when writes are queued. */
module HybridStore {
  import opened AuthTypes
  import opened RedisStore
  import opened MongoStore
  import opened Outbox

  type Collection = map<SessionId, Document>
  type Cache = map<SessionId, CacheEntry>

  /** The environment of one get: the instants of its reads, whether Redis answers, whether the circuit
      breaker lets the Mongo call through, and what findOne would find. */
  datatype ReadEnv = ReadEnv(
    redisAt: int, redisAnswers: bool, breakerLets: bool, lookupAt: int, found: Moment, filledAt: int)

  /** The environment of one set: whether the Redis pipeline runs, whether the outbox command takes effect
      and whether it is acknowledged, the queue, the Mongo moments, and the completion mark. */
  datatype WriteEnv = WriteEnv(
    redisAt: int, pipelineOk: bool, addApplied: bool, addOk: bool, queueOk: bool,
    mongoAt: int, moments: nat -> Moment, markOk: bool)

  /** What a Mongo get would answer through the breaker; every failure reads as a miss. */
  function ColdRead(connected: bool, cache: Cache, id: SessionId, env: ReadEnv): Option<Versioned> {
    if !env.breakerLets || !connected then None
    else
      var cached := Fresh(cache, id, env.lookupAt);
      var read := if cached.Some? then ReadDocument(cached)
                  else if env.found.fault != Healthy then Err(StorageFailure)
                  else ReadDocument(env.found.stored);
      if read.Ok? then read.value else None
  }

  /** The document cache after such a get. */
  function CacheAfterRead(connected: bool, cache: Cache, id: SessionId, env: ReadEnv): Cache {
    if !env.breakerLets || !connected || Fresh(cache, id, env.lookupAt).Some? then cache
    else if env.found.fault == Healthy && env.found.stored.Some? then
      cache[id := CacheEntry(env.found.stored.value, env.filledAt)]
    else cache - {id}
  }

  function HotRead(connected: bool, s: Session, env: ReadEnv): Option<Versioned> {
    if connected && env.redisAnswers then ViewGet(ViewAt(s, env.redisAt)) else None
  }

  /** Which way a set's Mongo write goes. */
  predicate Queued(writeBehind: bool, useOutbox: bool, env: WriteEnv) {
    writeBehind && (useOutbox ==> env.addOk) && env.queueOk
  }

  /** The outbox after a set that reached the write-behind step. */
  function OutboxAfterAdd(h: Hash, useOutbox: bool, id: EntryId, patch: AuthPatch, token: Option<int>, env: WriteEnv)
    : Hash
  {
    if useOutbox && (env.addApplied || env.addOk) && id !in h then h[id := Entry(patch, token, Pending, 0)] else h
  }

  function OutboxAfterMark(h: Hash, id: EntryId): Hash {
    if id in h then h[id := h[id].(status := Completed)] else h
  }

  function ScheduledByMark(h: Hash, id: EntryId, scheduled: multiset<EntryId>): multiset<EntryId> {
    scheduled + if id in h then multiset{id} else multiset{}
  }

  /** How a set ends: its answer and what the layers hold then. */
  datatype SetResult = SetResult(
    r: Result<int>, sessions: map<SessionId, Session>, collection: Collection, documentCache: Cache, entries: Hash,
    scheduled: multiset<EntryId>)

  class HybridAuthStore {
    const redis: RedisAuthStore
    const mongo: MongoAuthStore
    const outboxManager: OutboxManager
    const useOutbox: bool
    const writeBehind: bool // a queue is configured and write-behind enabled
    var connected: bool

    constructor (redis: RedisAuthStore, mongo: MongoAuthStore, outboxManager: OutboxManager, useOutbox: bool,
                 writeBehind: bool)
      ensures this.redis == redis && this.mongo == mongo && this.outboxManager == outboxManager
      ensures this.useOutbox == useOutbox && this.writeBehind == writeBehind && !connected
    {
      this.redis, this.mongo, this.outboxManager := redis, mongo, outboxManager;
      this.useOutbox, this.writeBehind, connected := useOutbox, writeBehind, false;
    }

    /** A hot hit wins; a miss falls back to Mongo and hands its answer to the cache warmer; a Mongo
        failure is reported as a missing session. */
    method Get(id: SessionId, env: ReadEnv) returns (r: Result<Option<Versioned>>, warm: Option<Versioned>)
      modifies mongo`documentCache
      ensures !connected ==> r == Err(StorageFailure) && warm == None && mongo.documentCache == old(mongo.documentCache)
      ensures connected ==>
        var hot := HotRead(redis.connected, redis.SessionOf(id), env);
        var cold := ColdRead(mongo.connected, old(mongo.documentCache), id, env);
        && r == Ok(if hot.Some? then hot else cold)
        && warm == (if hot.Some? then None else cold)
        && mongo.documentCache == if hot.Some? then old(mongo.documentCache)
                                  else CacheAfterRead(mongo.connected, old(mongo.documentCache), id, env)
    {
      if !connected { return Err(StorageFailure), None; }
      if env.redisAnswers {
        var cached := redis.Get(id, env.redisAt);
        if cached.Ok? && cached.value.Some? { return Ok(cached.value), None; }
      }
      if !env.breakerLets { return Ok(None), None; }
      var data := mongo.Get(id, env.lookupAt, env.found, env.filledAt);
      if data.Err? || data.value.None? { return Ok(None), None; }
      return Ok(data.value), data.value;
    }

    /** An answer together with what the layers hold. */
    function Holds(r: Result<int>): SetResult
      reads redis, mongo, outboxManager
    {
      SetResult(
        r, redis.sessions, mongo.collection, mongo.documentCache, outboxManager.entries, outboxManager.scheduled)
    }

    /** A direct Mongo write: an answer, the collection and the document cache. */
    function Direct(collection: Collection, cache: Cache, id: SessionId, patch: AuthPatch, expected: Option<int>,
        fencingToken: Option<int>, env: WriteEnv): (bool, Collection, Cache)
      reads this, mongo`connected
    {
      if !mongo.connected then (false, collection, cache)
      else
        var u := UpdatesOf(patch, expected, fencingToken, env.mongoAt, mongo.ttlSeconds);
        var o := SetOutcome(env.moments, expected, u, 0, mongo.maxRetries);
        if o.reply.Stored? then (true, Put(collection, id, Some(o.reply.doc)), cache - {id})
        else (false, Put(collection, id, env.moments(o.calls - 1).stored), cache)
    }

    /** Redis is written first and decides the version. What follows either queues the patch, with its
        outbox entry in place, or writes it to Mongo at once; an error after the Redis write leaves that
        write standing. */
    function AfterSet(cache: Cache, id: SessionId, patch: AuthPatch, expected: Option<int>,
        fencingToken: Option<int>, env: WriteEnv): SetResult
      reads this, redis, mongo`collection, mongo`connected, outboxManager`entries, outboxManager`scheduled
    {
      var entry, ok := EntryId(id, NextVersion(expected)), Ok(NextVersion(expected));
      var untouched := SetResult(
        Err(StorageFailure), redis.sessions, mongo.collection, cache, outboxManager.entries, outboxManager.scheduled);
      if !connected || !redis.connected || !env.pipelineOk then untouched
      else
        var session := SetSession(redis.SessionOf(id), patch, expected, env.redisAt, redis.defaultTtl);
        var added := if !writeBehind then outboxManager.entries
                     else OutboxAfterAdd(outboxManager.entries, useOutbox, entry, patch, fencingToken, env);
        var written := untouched.(sessions := redis.sessions[id := session], entries := added);
        if Queued(writeBehind, useOutbox, env) then written.(r := ok)
        else
          var (stored, collection, cache') := Direct(mongo.collection, cache, id, patch, expected, fencingToken, env);
          var persisted := written.(collection := collection, documentCache := cache');
          if !stored then persisted
          else if !writeBehind || !useOutbox then persisted.(r := ok)
          else if !env.markOk then persisted
          else persisted.(r := ok, entries := OutboxAfterMark(added, entry),
                          scheduled := ScheduledByMark(added, entry, outboxManager.scheduled))
    }

    method WriteToMongo(id: SessionId, patch: AuthPatch, expected: Option<int>, fencingToken: Option<int>,
        env: WriteEnv)
      returns (ok: bool)
      modifies mongo`collection, mongo`documentCache
      ensures (ok, mongo.collection, mongo.documentCache)
           == old(Direct(mongo.collection, mongo.documentCache, id, patch, expected, fencingToken, env))
    {
      hide SetOutcome;
      var persisted, _, _ := mongo.Set(id, patch, expected, fencingToken, env.mongoAt, env.moments);
      ok := persisted.Ok?;
    }

    method Set(id: SessionId, patch: AuthPatch, expected: Option<int>, fencingToken: Option<int>, env: WriteEnv)
      returns (r: Result<int>)
      modifies redis`sessions, mongo`collection, mongo`documentCache
      modifies outboxManager`entries, outboxManager`scheduled
      ensures Holds(r) == old(AfterSet(mongo.documentCache, id, patch, expected, fencingToken, env))
    {
      hide SetSession;
      hide Direct;
      if !connected { return Err(StorageFailure); }
      var result := redis.Set(id, patch, expected, env.redisAt, env.pipelineOk);
      if result.Err? { return Err(StorageFailure); }
      if writeBehind {
        if useOutbox && (env.addApplied || env.addOk) {
          outboxManager.AddEntry(EntryId(id, result.value), patch, fencingToken);
        }
        if !((useOutbox && !env.addOk) || !env.queueOk) { return result; }
        var persisted := WriteToMongo(id, patch, expected, fencingToken, env);
        if !persisted { return Err(StorageFailure); }
        if useOutbox {
          if !env.markOk { return Err(StorageFailure); }
          outboxManager.MarkCompleted(EntryId(id, result.value));
        }
      } else {
        var persisted := WriteToMongo(id, patch, expected, fencingToken, env);
        if !persisted { return Err(StorageFailure); }
      }
      return result;
    }

    /** An error only when neither layer could be deleted from. */
    method Delete(id: SessionId, redisOk: bool, mongoFault: Fault) returns (r: Result<()>)
      modifies redis`sessions, mongo`collection, mongo`documentCache
      ensures var fromRedis := connected && redisOk && redis.connected;
              var fromMongo := connected && mongo.connected && mongoFault == Healthy;
              && r == (if fromRedis || fromMongo then Ok(()) else Err(StorageFailure))
              && redis.sessions == (if fromRedis then old(redis.sessions) - {id} else old(redis.sessions))
              && mongo.collection == (if fromMongo then old(mongo.collection) - {id} else old(mongo.collection))
              && mongo.documentCache == old(mongo.documentCache) - if fromMongo then {id} else {}
    {
      if !connected { return Err(StorageFailure); }
      var errors := 0;
      if redisOk {
        var deleted := redis.Delete(id);
        if deleted.Err? { errors := errors + 1; }
      } else {
        errors := errors + 1;
      }
      var deleted := mongo.Delete(id, mongoFault);
      if deleted.Err? { errors := errors + 1; }
      if errors == 2 { return Err(StorageFailure); }
      r := Ok(());
    }

    /** The warmer reads meta at `metaAt` and writes at `writtenAt`, outside the session's mutex. It
        stores the snapshot under its version plus one, unless Redis already has that version or more. */
    method WarmCache(id: SessionId, data: Versioned, metaAt: int, writtenAt: int, redisOk: bool)
      modifies redis`sessions
      ensures var meta := Alive(old(redis.SessionOf(id)).meta, metaAt);
              redis.sessions ==
                if redisOk && redis.connected && !(meta.Some? && meta.value >= data.version)
                then old(redis.sessions)[id := SetSession(old(redis.SessionOf(id)), FullPatch(data.data),
                                                          Some(data.version), writtenAt, redis.defaultTtl)]
                else old(redis.sessions)
    {
      if !redisOk { return; }
      var meta := Alive(redis.SessionOf(id).meta, metaAt);
      if meta.Some? {
        if meta.value >= data.version { return; }
      }
      var _ := redis.Set(id, FullPatch(data.data), Some(data.version), writtenAt, true);
    }
  }

  /** The document has every field the patch names, as the patch has it. */
  predicate Carries(doc: Document, patch: AuthPatch) {
    && (patch.creds.Some? ==> doc.creds == patch.creds)
    && (patch.keys.Some? ==> doc.keys == patch.keys)
    && (patch.appState.Some? ==> doc.appState == patch.appState)
  }

  lemma SetShows(before: View, patch: AuthPatch, expected: Option<int>)
    ensures var got := ViewGet(ViewSet(before, patch, expected));
            && (got.Some? <==> patch.creds.Some? || before.creds.Some?)
            && (got.Some? ==>
                  && got.value.version == ReportedVersion(Some(NextVersion(expected)))
                  && got.value.data.creds == GetOr(patch.creds, GetOr(before.creds, "")))
  {
    hide MergedKeys;
  }

  /** Mongo accepts the direct write of a set. */
  predicate MongoAccepts(store: HybridAuthStore, patch: AuthPatch, expected: Option<int>, fencingToken: Option<int>,
      env: WriteEnv)
    reads store.mongo`connected
  {
    var u := UpdatesOf(patch, expected, fencingToken, env.mongoAt, store.mongo.ttlSeconds);
    store.mongo.connected && SetOutcome(env.moments, expected, u, 0, store.mongo.maxRetries).reply.Stored?
  }

  lemma DirectWriteStores(store: HybridAuthStore, patch: AuthPatch, expected: Option<int>, fencingToken: Option<int>,
      env: WriteEnv)
    ensures MongoAccepts(store, patch, expected, fencingToken, env) ==>
      var u := UpdatesOf(patch, expected, fencingToken, env.mongoAt, store.mongo.ttlSeconds);
      var doc := SetOutcome(env.moments, expected, u, 0, store.mongo.maxRetries).reply.doc;
      && doc.version == GetOr(expected, 0) + 1 && Carries(doc, patch)
      && doc.expiresAt == env.mongoAt + store.mongo.ttlSeconds * 1000 && doc.updatedAt == env.mongoAt
  {
    SuccessStoresTheNextVersion(
      env.moments, patch, expected, fencingToken, env.mongoAt, store.mongo.ttlSeconds, 0, store.mongo.maxRetries);
  }

  /** An acknowledged set is kept: under the version returned, the patch is in the session's Mongo document, or
      open in the outbox unless that version's entry already existed. And it is readable at once: if the
      patch has creds or Redis still shows some, Redis answers with the patch merged in; if not, Redis
      does not answer for the session. */
  method SetThenGet(
    store: HybridAuthStore, id: SessionId, patch: AuthPatch, expected: Option<int>, fencingToken: Option<int>,
    env: WriteEnv, readEnv: ReadEnv)
    returns (r: Result<int>, got: Result<Option<Versioned>>)
    requires store.redis.defaultTtl > 0 && readEnv.redisAnswers && readEnv.redisAt == env.redisAt
    modifies store.redis`sessions, store.mongo`collection, store.mongo`documentCache
    modifies store.outboxManager`entries, store.outboxManager`scheduled
    ensures r.Ok? ==>
      var before := ViewAt(old(store.redis.SessionOf(id)), env.redisAt);
      var entry := EntryId(id, r.value);
      && r.value == NextVersion(expected)
      && (patch.creds.Some? || before.creds.Some? ==>
            && got == Ok(ViewGet(ViewSet(before, patch, expected))) && got.value.Some?
            && got.value.value.version == ReportedVersion(Some(r.value))
            && got.value.value.data.creds == GetOr(patch.creds, GetOr(before.creds, "")))
      && (patch.creds.None? && before.creds.None? ==>
            HotRead(store.redis.connected, store.redis.SessionOf(id), readEnv) == None)
      && (if Queued(store.writeBehind, store.useOutbox, env)
          then store.useOutbox ==>
                 && entry in store.outboxManager.entries
                 && (entry !in old(store.outboxManager.entries) ==>
                       store.outboxManager.entries[entry] == Entry(patch, fencingToken, Pending, 0))
          else && id in store.mongo.collection
               && store.mongo.collection[id].version == r.value
               && Carries(store.mongo.collection[id], patch))
  {
    hide SetSession;
    hide ViewSet;
    hide ViewGet;
    hide ViewAt;
    hide SetOutcome;
    hide UpdatesOf;
    hide Carries;
    hide ScheduledByMark;
    DirectWriteStores(store, patch, expected, fencingToken, env);
    r := store.Set(id, patch, expected, fencingToken, env);
    if r.Err? { return r, Err(StorageFailure); }
    TimedSetIsViewSet(
      old(store.redis.SessionOf(id)), patch, expected, env.redisAt, env.redisAt, store.redis.defaultTtl);
    SetShows(ViewAt(old(store.redis.SessionOf(id)), env.redisAt), patch, expected);
    var answer, _ := store.Get(id, readEnv);
    got := answer;
  }

  /** Nothing changed but one key's value. */
  ghost predicate OnlyAt<K, V>(key: K, before: map<K, V>, after: map<K, V>) {
    after - {key} == before - {key}
  }

  lemma OnlyAtPut<K, V>(key: K, before: map<K, V>, value: V)
    ensures OnlyAt(key, before, before) && OnlyAt(key, before, before[key := value])
  {
  }

  lemma DirectTouches(store: HybridAuthStore, collection: Collection, cache: Cache, id: SessionId, patch: AuthPatch,
      expected: Option<int>, fencingToken: Option<int>, env: WriteEnv)
    ensures var (stored, collection', cache') :=
              store.Direct(collection, cache, id, patch, expected, fencingToken, env);
            && (stored <==> MongoAccepts(store, patch, expected, fencingToken, env))
            && OnlyAt(id, collection, collection') && OnlyAt(id, cache, cache')
            && (stored ==>
                  && id in collection' && id !in cache'
                  && collection'[id].expiresAt == env.mongoAt + store.mongo.ttlSeconds * 1000
                  && collection'[id].updatedAt == env.mongoAt)
  {
    DirectWriteStores(store, patch, expected, fencingToken, env);
    hide SetOutcome;
    hide UpdatesOf;
    hide Carries;
  }

  /** A set is acknowledged if and only if Redis took it and then the queue did, with the outbox entry acknowledged if
      there is an outbox, or Mongo did, with the completion mark if there is one to set. If Redis did not take it
      nothing changed anywhere; if it did the patch is readable, acknowledged or not. */
  lemma HowASetAnswers(store: HybridAuthStore, cache: Cache, id: SessionId, patch: AuthPatch, expected: Option<int>,
      fencingToken: Option<int>, env: WriteEnv)
    requires store.redis.defaultTtl > 0
    ensures var after := store.AfterSet(cache, id, patch, expected, fencingToken, env);
            var taken := store.connected && store.redis.connected && env.pipelineOk;
            var queued := store.writeBehind && (!store.useOutbox || env.addOk) && env.queueOk;
            var written := MongoAccepts(store, patch, expected, fencingToken, env);
            && (after.r.Ok? <==>
                  taken && (queued || (written && (store.writeBehind && store.useOutbox ==> env.markOk))))
            && (after.r.Ok? ==> after.r.value == GetOr(expected, 0) + 1)
            && (taken ==>
                  && id in after.sessions
                  && ViewAt(after.sessions[id], env.redisAt)
                       == ViewSet(ViewAt(store.redis.SessionOf(id), env.redisAt), patch, expected))
            && (!taken ==> after == store.Holds(Err(StorageFailure)).(documentCache := cache))
  {
    DirectTouches(store, store.mongo.collection, cache, id, patch, expected, fencingToken, env);
    TimedSetIsViewSet(
      store.redis.SessionOf(id), patch, expected, env.redisAt, env.redisAt, store.redis.defaultTtl);
    hide SetSession;
    hide ViewSet;
    hide ViewAt;
    hide HybridAuthStore.Direct;
    hide MongoAccepts;
    hide OutboxAfterAdd;
    hide OutboxAfterMark;
    hide ScheduledByMark;
  }

  /** A set touches no other session, and one that Mongo accepted directly renews the document's expiry and drops the
      cached document. */
  lemma WhatASetTouches(store: HybridAuthStore, cache: Cache, id: SessionId, patch: AuthPatch, expected: Option<int>,
      fencingToken: Option<int>, env: WriteEnv)
    ensures var after := store.AfterSet(cache, id, patch, expected, fencingToken, env);
            var queued := store.writeBehind && (!store.useOutbox || env.addOk) && env.queueOk;
            && OnlyAt(id, store.redis.sessions, after.sessions)
            && OnlyAt(id, store.mongo.collection, after.collection) && OnlyAt(id, cache, after.documentCache)
            && (queued ==> after.collection == store.mongo.collection && after.documentCache == cache)
            && (after.r.Ok? && !queued ==>
                  && id in after.collection && id !in after.documentCache
                  && after.collection[id].expiresAt == env.mongoAt + store.mongo.ttlSeconds * 1000
                  && after.collection[id].updatedAt == env.mongoAt)
  {
    DirectTouches(store, store.mongo.collection, cache, id, patch, expected, fencingToken, env);
    OnlyAtPut(id, store.redis.sessions,
              SetSession(store.redis.SessionOf(id), patch, expected, env.redisAt, store.redis.defaultTtl));
    hide OnlyAt;
    hide HybridAuthStore.Direct;
    hide MongoAccepts;
    hide SetSession;
    hide OutboxAfterAdd;
    hide OutboxAfterMark;
    hide ScheduledByMark;
  }

  /** The call does so. */
  method SetWhateverHappens(
    store: HybridAuthStore, id: SessionId, patch: AuthPatch, expected: Option<int>, fencingToken: Option<int>,
    env: WriteEnv)
    returns (r: Result<int>)
    requires store.redis.defaultTtl > 0
    modifies store.redis`sessions, store.mongo`collection, store.mongo`documentCache
    modifies store.outboxManager`entries, store.outboxManager`scheduled
    ensures var taken := store.connected && store.redis.connected && env.pipelineOk;
            var queued := store.writeBehind && (!store.useOutbox || env.addOk) && env.queueOk;
            var written := MongoAccepts(store, patch, expected, fencingToken, env);
            && (r.Ok? <==> taken && (queued || (written && (store.writeBehind && store.useOutbox ==> env.markOk))))
            && (if taken then ViewAt(store.redis.SessionOf(id), env.redisAt)
                                == ViewSet(ViewAt(old(store.redis.SessionOf(id)), env.redisAt), patch, expected)
                else store.Holds(r) == old(store.Holds(Err(StorageFailure))))
            && (r.Ok? && !queued ==>
                  && id in store.mongo.collection && id !in store.mongo.documentCache
                  && store.mongo.collection[id].expiresAt == env.mongoAt + store.mongo.ttlSeconds * 1000
                  && store.mongo.collection[id].updatedAt == env.mongoAt)
    ensures OnlyAt(id, old(store.redis.sessions), store.redis.sessions)
    ensures OnlyAt(id, old(store.mongo.collection), store.mongo.collection)
    ensures OnlyAt(id, old(store.mongo.documentCache), store.mongo.documentCache)
  {
    HowASetAnswers(store, store.mongo.documentCache, id, patch, expected, fencingToken, env);
    WhatASetTouches(store, store.mongo.documentCache, id, patch, expected, fencingToken, env);
    hide ViewSet;
    hide ViewAt;
    hide OnlyAt;
    hide HybridAuthStore.AfterSet;
    r := store.Set(id, patch, expected, fencingToken, env);
  }

  /** What an acknowledged set leaves in the outbox: queued, its fresh entry; written directly, the entry completed,
      with the patch, token and attempts it had, and one more deletion scheduled. */
  lemma HowASetIsBooked(store: HybridAuthStore, cache: Cache, id: SessionId, patch: AuthPatch, expected: Option<int>,
      fencingToken: Option<int>, env: WriteEnv)
    requires store.writeBehind && store.useOutbox
    ensures var after := store.AfterSet(cache, id, patch, expected, fencingToken, env);
            var entry := EntryId(id, GetOr(expected, 0) + 1);
            var before, scheduled := store.outboxManager.entries, store.outboxManager.scheduled;
            var found := if entry in before then before[entry] else Entry(patch, fencingToken, Pending, 0);
            && OnlyAt(entry, before, after.entries)
            && (after.r.Ok? && env.addOk && env.queueOk ==>
                  entry in after.entries && after.entries[entry] == found && after.scheduled == scheduled)
            && (after.r.Ok? && !(env.addOk && env.queueOk) ==>
                  if entry in before || env.addApplied || env.addOk
                  then && entry in after.entries && after.entries[entry] == found.(status := Completed)
                       && after.scheduled == scheduled + multiset{entry}
                  else entry !in after.entries && after.scheduled == scheduled)
  {
    hide SetSession;
    hide HybridAuthStore.Direct;
  }

  /** What a pass makes of two hashes that agree but for one entry. */
  lemma PassOnOneEntry(h: Hash, h': Hash, entry: EntryId, ok: EntryId -> bool)
    requires OnlyAt(entry, h, h')
    ensures OnlyAt(entry, Pass(h, ok), Pass(h', ok))
    ensures entry !in h' ==> entry !in Pass(h', ok) && entry !in DoneIds(h', ok) && entry !in DeadIds(h', ok)
    ensures entry in h' && h'[entry].status == Completed ==>
      && entry in Pass(h', ok) && Pass(h', ok)[entry] == h'[entry]
      && entry !in DoneIds(h', ok) && entry !in DeadIds(h', ok)
    ensures entry in h' && h'[entry].status == Pending && h'[entry].attempts == 0 ==>
      && entry in Pass(h', ok) && (entry in DoneIds(h', ok) <==> ok(entry)) && entry !in DeadIds(h', ok)
      && Pass(h', ok)[entry] == if ok(entry) then h'[entry].(status := Completed)
                                else h'[entry].(status := Status.Failed, attempts := 1)
  {
    forall id | id != entry ensures id in h <==> id in h' {
      assert id in h - {entry} <==> id in h' - {entry};
    }
    forall id | id in h && id != entry ensures h[id] == h'[id] {
      assert (h - {entry})[id] == (h' - {entry})[id];
    }
  }

  /** The outbox entry of an acknowledged set through the reconciler pass that follows. If the queue took the set, a
      fresh entry is collected, and completed or booked as failed as Mongo answers. If the set wrote to Mongo itself,
      the entry is completed with the patch, token and attempts it has, its deletion is scheduled once, and the pass
      neither writes it again nor gives up on it. All other entries are as the pass alone would leave them. */
  method SetThenReconcile(
    store: HybridAuthStore, id: SessionId, patch: AuthPatch, expected: Option<int>, fencingToken: Option<int>,
    env: WriteEnv, mongoOk: EntryId -> bool, duration: real)
    returns (r: Result<int>, ghost moved: seq<DeadRecord>)
    requires store.outboxManager.Accounted() && store.writeBehind && store.useOutbox
    modifies store.redis`sessions, store.mongo`collection, store.mongo`documentCache, store.outboxManager
    ensures var entry := EntryId(id, GetOr(expected, 0) + 1);
            var before, after := old(store.outboxManager.entries), store.outboxManager.entries;
            var found := if entry in before then before[entry] else Entry(patch, fencingToken, Pending, 0);
            var marks := store.outboxManager.scheduled[entry] as int - old(store.outboxManager.scheduled)[entry] as int;
            && OnlyAt(entry, Pass(before, mongoOk), after)
            && (r.Ok? && env.addOk && env.queueOk && entry !in before ==>
                  && entry in after && marks == (if mongoOk(entry) then 1 else 0)
                  && after[entry] == (if mongoOk(entry) then Entry(patch, fencingToken, Status.Completed, 0)
                                      else Entry(patch, fencingToken, Status.Failed, 1)))
            && (r.Ok? && !(env.addOk && env.queueOk) ==>
                  && (forall i :: 0 <= i < |moved| ==> moved[i].id != entry)
                  && if entry in before || env.addApplied || env.addOk
                     then entry in after && after[entry] == found.(status := Completed) && marks == 1
                     else entry !in after && marks == 0)
  {
    HowASetIsBooked(store, store.mongo.documentCache, id, patch, expected, fencingToken, env);
    hide HybridAuthStore.AfterSet;
    ghost var before := store.outboxManager.entries;
    r := store.Set(id, patch, expected, fencingToken, env);
    PassOnOneEntry(before, store.outboxManager.entries, EntryId(id, GetOr(expected, 0) + 1), mongoOk);
    hide OnlyAt;
    hide Pass;
    hide DoneIds;
    hide DeadIds;
    var _, gone := store.outboxManager.Reconcile(mongoOk, duration);
    moved := gone;
    assert forall i :: 0 <= i < |moved| ==> moved[i] in moved;
  }

  /** Two gets in a row while Redis does not answer, the first one from Mongo: the second is answered from the cache
      for 5000 ms and no longer, and a breaker that is open, or a Mongo failure, reads as a missing session. What
      Mongo or its cache answered goes to the warmer. */
  method ColdGetTwice(store: HybridAuthStore, id: SessionId, first: ReadEnv, second: ReadEnv)
    returns (r: Result<Option<Versioned>>, warm: Option<Versioned>)
    requires store.connected && store.mongo.connected && id !in store.mongo.documentCache
    requires !first.redisAnswers && first.breakerLets && first.found.fault == Healthy && first.found.stored.Some?
    requires !second.redisAnswers
    modifies store.mongo`documentCache
    ensures var read := if second.lookupAt - first.filledAt <= 5000 then ReadDocument(first.found.stored)
                        else if second.found.fault == Healthy then ReadDocument(second.found.stored)
                        else Err(StorageFailure);
            && r == Ok(if second.breakerLets && read.Ok? then read.value else None)
            && warm == r.value
  {
    hide ReadDocument;
    var _, _ := store.Get(id, first);
    r, warm := store.Get(id, second);
  }

  /** A get that misses Redis and its warmer, run to the end: from then on, and as long as the default time lasts,
      Redis answers with the same snapshot under the next version. */
  method ColdGetThenWarm(
    store: HybridAuthStore, id: SessionId, env: ReadEnv, metaAt: int, writtenAt: int, later: ReadEnv)
    returns (cold: Result<Option<Versioned>>, hot: Result<Option<Versioned>>)
    requires store.connected && store.redis.connected && id !in store.redis.sessions
    requires later.redisAnswers && later.redisAt < writtenAt + store.redis.defaultTtl
    modifies store.redis`sessions, store.mongo`documentCache
    ensures cold.Ok? && cold.value.Some? && NoNulls(cold.value.value.data.keys) && cold.value.value.version + 1 != 0 ==>
      hot == Ok(Some(Versioned(cold.value.value.data, cold.value.value.version + 1)))
  {
    var warm;
    cold, warm := store.Get(id, env);
    if warm.Some? {
      store.WarmCache(id, warm.value, metaAt, writtenAt, true);
      if NoNulls(warm.value.data.keys) { MergeIdempotent(warm.value.data.keys); }
    }
    hot, warm := store.Get(id, later);
  }

  /** The Baileys hook: credentials held in memory, keys merged over what a get returned. */
  class HybridAuthState {
    const store: HybridAuthStore
    const sessionId: SessionId
    var creds: string

    /** `initial` are fresh credentials, replaced by what a get found, if the session exists. */
    constructor (store: HybridAuthStore, sessionId: SessionId, initial: string, existing: Option<Versioned>)
      ensures this.store == store && this.sessionId == sessionId
      ensures creds == if existing.Some? then existing.value.data.creds else initial
    {
      this.store, this.sessionId := store, sessionId;
      creds := if existing.Some? then existing.value.data.creds else initial;
    }

    /** What the hook's own get answers, and the document cache after it. */
    function Read(env: ReadEnv): Option<Versioned>
      reads store, store.redis, store.mongo
    {
      var hot := HotRead(store.redis.connected, store.redis.SessionOf(sessionId), env);
      if hot.Some? then hot else ColdRead(store.mongo.connected, store.mongo.documentCache, sessionId, env)
    }

    function CacheAfterGet(env: ReadEnv): Cache
      reads store, store.redis, store.mongo
    {
      if !store.connected || HotRead(store.redis.connected, store.redis.SessionOf(sessionId), env).Some?
      then store.mongo.documentCache
      else CacheAfterRead(store.mongo.connected, store.mongo.documentCache, sessionId, env)
    }

    /** keys.set: the data is merged into the keys just read, and the whole table goes to the store under the
        version just read. */
    method KeysSet(data: KeyTable, readEnv: ReadEnv, env: WriteEnv) returns (r: Result<int>)
      modifies store.redis`sessions, store.mongo`collection, store.mongo`documentCache
      modifies store.outboxManager`entries, store.outboxManager`scheduled
      ensures store.Holds(r) == old(store.AfterSet(
                CacheAfterGet(readEnv), sessionId, HookPatch(Read(readEnv), data), Some(HookVersion(Read(readEnv))),
                None, env))
    {
      hide MergeKeys;
      hide ViewGet;
      var got, _ := store.Get(sessionId, readEnv);
      if got.Err? { return Err(got.error); }
      var snapshot := got.value;
      var currentVersion := if snapshot.Some? then snapshot.value.version else 0;
      var mergedKeys := MergeIncrementally(if snapshot.Some? then snapshot.value.data.keys else map[], data);
      r := store.Set(sessionId, AuthPatch(None, Some(mergedKeys), None), Some(currentVersion), None, env);
    }

    method SaveCreds(readEnv: ReadEnv, env: WriteEnv) returns (r: Result<int>)
      modifies store.redis`sessions, store.mongo`collection, store.mongo`documentCache
      modifies store.outboxManager`entries, store.outboxManager`scheduled
      ensures store.Holds(r) == old(store.AfterSet(
                CacheAfterGet(readEnv), sessionId, CredsPatch(creds), Some(HookVersion(Read(readEnv))), None, env))
    {
      hide ViewGet;
      var got, _ := store.Get(sessionId, readEnv);
      if got.Err? { return Err(got.error); }
      var currentVersion := if got.value.Some? then got.value.value.version else 0;
      r := store.Set(sessionId, AuthPatch(Some(creds), None, None), Some(currentVersion), None, env);
    }
  }

  lemma SavedCredsShow(session: Session, creds: string, expected: Option<int>, now: int, ttl: int, at: int)
    requires at < now + ttl
    ensures var got := ViewGet(ViewAt(SetSession(session, CredsPatch(creds), expected, now, ttl), at));
            got.Some? && got.value.data.creds == creds
  {
  }

  lemma SavedCredsReadBack(
    moments: nat -> Moment, creds: string, expected: Option<int>, now: int, ttl: int, maxRetries: nat)
    ensures var u := UpdatesOf(CredsPatch(creds), expected, None, now, ttl);
            var o := SetOutcome(moments, expected, u, 0, maxRetries);
            o.reply.Stored? ==>
              && var read := ReadDocument(Some(o.reply.doc));
              && read.Ok? && read.value.Some? && read.value.value.data.creds == creds
  {
    SuccessStoresTheNextVersion(moments, CredsPatch(creds), expected, None, now, ttl, 0, maxRetries);
  }

  /** Restarting after an acknowledged saveCreds: the hook's own get finds the credentials saved, in Redis, or in
      Mongo when Redis does not answer and the write was a direct one; the fresh ones are discarded. */
  method SaveAndRestart(hook: HybridAuthState, saveReadEnv: ReadEnv, env: WriteEnv, readEnv: ReadEnv, initial: string)
    returns (r: Result<int>, restarted: HybridAuthState)
    modifies hook.store.redis`sessions, hook.store.mongo`collection, hook.store.mongo`documentCache
    modifies hook.store.outboxManager`entries, hook.store.outboxManager`scheduled
    ensures hook.creds == old(hook.creds)
    ensures r.Ok? && readEnv.redisAnswers && readEnv.redisAt < env.redisAt + hook.store.redis.defaultTtl
            ==> restarted.creds == hook.creds
    ensures r.Ok? && !readEnv.redisAnswers && readEnv.breakerLets
            && !Queued(hook.store.writeBehind, hook.store.useOutbox, env)
            && readEnv.found == Moment(Find(hook.store.mongo.collection, hook.sessionId), Healthy)
            ==> restarted.creds == hook.creds
  {
    var store, id := hook.store, hook.sessionId;
    hide SetSession;
    hide ViewGet;
    hide ViewAt;
    hide SetOutcome;
    hide UpdatesOf;
    hide ReadDocument;
    hide OutboxAfterAdd;
    hide OutboxAfterMark;
    hide ScheduledByMark;
    ghost var expected := Some(HookVersion(hook.Read(saveReadEnv)));
    r := hook.SaveCreds(saveReadEnv, env);
    SavedCredsReadBack(env.moments, hook.creds, expected, env.mongoAt, store.mongo.ttlSeconds, store.mongo.maxRetries);
    if readEnv.redisAt < env.redisAt + store.redis.defaultTtl {
      SavedCredsShow(
        old(store.redis.SessionOf(id)), hook.creds, expected, env.redisAt, store.redis.defaultTtl, readEnv.redisAt);
    }
    var existing, _ := store.Get(id, readEnv);
    restarted := new HybridAuthState(store, id, initial, if existing.Ok? then existing.value else None);
  }

  function CredsPatch(creds: string): AuthPatch {
    AuthPatch(Some(creds), None, None)
  }

  function HookVersion(read: Option<Versioned>): int {
    if read.Some? then read.value.version else 0
  }

  function HookPatch(read: Option<Versioned>, data: KeyTable): AuthPatch {
    AuthPatch(None, Some(MergeKeys(if read.Some? then read.value.data.keys else map[], data)), None)
  }

  /** Some id the data deletes is present in the table. */
  predicate DeletesSomething(table: KeyTable, data: KeyTable) {
    exists t, id :: t in data && id in data[t] && data[t][id] == Null && Lookup(table, t, id).Some?
  }

  /** The hook resolves deletions before the store sees them: Redis merges the result over the table that
      still has the ids, so a deleted id survives there, with its old value, while Mongo drops it. */
  lemma HookDeletionsMissRedis(hot: KeyTable, data: KeyTable, t: string, id: string)
    requires NoNulls(hot)
    ensures var sent := MergeKeys(hot, data);
            && Lookup(sent, t, id) == (match Lookup(data, t, id)
                                       case None => Lookup(hot, t, id)
                                       case Some(v) => if v == Null then None else Some(v))
            && Lookup(MergeKeys(hot, sent), t, id) == (match Lookup(data, t, id)
                                       case None => Lookup(hot, t, id)
                                       case Some(v) => if v == Null then Lookup(hot, t, id) else Some(v))
  {
    var sent := MergeKeys(hot, data);
    MergeLooksUp(hot, data, t, id);
    MergeLooksUp(hot, sent, t, id);
  }

  /** After a hook set over a hot read, Redis holds the table Mongo was sent if and only if the data
      deletes nothing that is there. */
  lemma LayersAgreeExactlyWithoutDeletions(hot: KeyTable, data: KeyTable)
    requires NoNulls(hot)
    ensures MergeKeys(hot, MergeKeys(hot, data)) == MergeKeys(hot, data) <==> !DeletesSomething(hot, data)
  {
    var sent := MergeKeys(hot, data);
    var merged := MergeKeys(hot, sent);
    if DeletesSomething(hot, data) {
      var t, id :| t in data && id in data[t] && data[t][id] == Null && Lookup(hot, t, id).Some?;
      HookDeletionsMissRedis(hot, data, t, id);
    } else {
      forall t | t in sent ensures merged[t] == sent[t] {
        forall id: string ensures Lookup(merged, t, id) == Lookup(sent, t, id) {
          HookDeletionsMissRedis(hot, data, t, id);
        }
        SameIds(merged, sent, t);
      }
    }
  }

  lemma SameIds(a: KeyTable, b: KeyTable, t: string)
    requires t in a && t in b && forall id: string :: Lookup(a, t, id) == Lookup(b, t, id)
    ensures a[t] == b[t]
  {
    forall id: string ensures id in a[t] <==> id in b[t] {
      assert Lookup(a, t, id) == Lookup(b, t, id);
    }
    forall id | id in a[t] ensures a[t][id] == b[t][id] {
      assert Lookup(a, t, id) == Lookup(b, t, id);
    }
  }
}
