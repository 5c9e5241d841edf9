/** The command-by-command store without interference: its commands add up to the store's own get, set and warm. */
module HybridQuiet {
  import opened AuthTypes
  import opened RedisStore
  import opened MongoStore
  import opened HybridStore
  import opened HybridProtocol

  /** A get sent without a break answers with what Redis shows, and with what Mongo or its cache has if that is
      nothing. It leaves Redis and Mongo alone, and a warmer behind exactly if Mongo answered. */
  lemma QuietGet(s: State, early: set<(string, string)>)
    requires s.caller.Idle?
    ensures var s1 := Next(s, Begin(Look));
            var s2 := Next(s1, ReadCreds);
            var step := if s2.caller.AtKeys? then ReadKeys else ReadMongo(early);
            && Enabled(s2, step) && Completes(s2, step)
            && var end := Next(s2, step);
               && Answer(s2, step) == (if ViewGet(s.redis).Some? then ViewGet(s.redis) else MongoAnswer(s))
               && end.caller == Idle && end.redis == s.redis && end.mongo == s.mongo
               && end.warms == s.warms + (if ViewGet(s.redis).Some? || MongoAnswer(s).None? then []
                                          else [Warm(MongoAnswer(s).value, Check)])
               && end.cached == if ViewGet(s.redis).Some? || s.cached.Some? then s.cached else s.mongo
  {
    hide ReadDocument;
  }

  /** A set sent without a break writes to Redis what a set of the Redis store does, and to Mongo one upsert of the
      patch under the next version, after which no cached document is left. */
  lemma QuietSet(s: State, now: int, ttl: int)
    requires s.caller.AtRedisSet?
    ensures var c := s.caller;
            var s1 := if TouchesKeys(c.patch) then Next(s, ReadForMerge) else s;
            && Enabled(s1, WriteRedis)
            && var s2 := Next(s1, WriteRedis);
               && Enabled(s2, WriteMongo(now, ttl))
               && var end := Next(s2, WriteMongo(now, ttl));
                  && end.redis == ViewSet(s.redis, c.patch, Some(c.expected))
                  && end.mongo == Some(Upserted(s.mongo, UpdatesOf(c.patch, Some(c.expected), None, now, ttl)))
                  && end.cached == None && end.caller == Idle && end.warms == s.warms
  {
    hide MergedKeys;
    hide Upserted;
    hide UpdatesOf;
  }

  /** A warmer sent without a break sets its whole snapshot over its version, and nothing when Redis has that version
      or a later one. */
  lemma QuietWarm(s: State, i: nat)
    requires i < |s.warms| && s.warms[i].at.Check?
    ensures var w, s1 := s.warms[i], WarmNext(s, i);
            if s.redis.meta.Some? && s.redis.meta.value >= w.data.version
            then s1 == s.(warms := s.warms[..i] + s.warms[i + 1..])
            else
              && i < |s1.warms| && s1.warms[i].at.Merge?
              && i < |WarmNext(s1, i).warms| && WarmNext(s1, i).warms[i].at.Pipeline?
              && WarmNext(WarmNext(s1, i), i)
                   == s.(redis := ViewSet(s.redis, FullPatch(w.data.data), Some(w.data.version)),
                         warms := s.warms[..i] + s.warms[i + 1..])
  {
    hide MergedKeys;
    if !(s.redis.meta.Some? && s.redis.meta.value >= s.warms[i].data.version) {
      var s1 := WarmNext(s, i);
      var s2 := WarmNext(s1, i);
      assert s2.warms[..i] == s.warms[..i] && s2.warms[i + 1..] == s.warms[i + 1..];
    }
  }
}
