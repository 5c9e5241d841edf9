/** The write-through hybrid store behaves like a plain map, exactly as long as Redis shows a session whole. */
module HybridRefinement {
  import opened AuthTypes
  import opened RedisStore
  import opened MongoStore
  import opened HybridStore
  import opened HybridProtocol

  // ----- tables on their way to Redis -----

  /** Every id of the one table is an id of the other. */
  predicate Within(k: KeyTable, t: KeyTable) {
    forall x :: x in k ==> x in t && k[x].Keys <= t[x].Keys
  }

  /** Merging a table over another gives that table exactly when the other has no id it lacks. */
  lemma MergeOverwritesExactlyWithin(k: KeyTable, t: KeyTable)
    requires NoNulls(t)
    ensures MergeKeys(k, t) == t <==> Within(k, t)
  {
    var m := MergeKeys(k, t);
    if Within(k, t) {
      forall x | x in t ensures MergeIds(TypeOf(k, x), t[x]) == t[x] {
      }
    } else {
      var x :| x in k && !(x in t && k[x].Keys <= t[x].Keys);
      if x in t {
        var id :| id in k[x] && id !in t[x];
        assert id in m[x];
      } else {
        assert x in m;
      }
    }
  }

  // ----- the invariant -----

  /** The snapshot Redis is to show: the set's own from its pipeline on. */
  function Shown(s: State): Option<AuthSnapshot> {
    if s.caller.AtMongoSet? then Effect(s.plain, s.caller.purpose) else s.plain
  }

  /** A set past its get's look at the creds. It overwrites the creds, or looks what they are when it writes. */
  predicate CredsAside(c: Caller) {
    (c.AtKeys? || c.AtMongoRead? || c.AtRedisSet? || c.AtPipeline?) && !c.purpose.Look?
  }

  /** A keys.set past its get. It overwrites the keys, having looked what they are. */
  predicate KeysAside(c: Caller) {
    (c.AtMongoRead? || c.AtRedisSet? || c.AtPipeline?) && c.purpose.SetKeys?
  }

  predicate CredsOk(s: State, creds: string) {
    CredsAside(s.caller) || (Shown(s).Some? && creds == Shown(s).value.creds)
  }

  predicate KeysOk(s: State, k: KeyTable) {
    KeysAside(s.caller) || (Shown(s).Some? && k == Shown(s).value.keys)
  }

  predicate VersionOk(s: State, v: int) {
    if s.caller.AtMongoSet? then s.caller.expected + 1 <= v <= s.caller.expected + 2
    else s.mongo.Some? && s.mongo.value.version <= v <= s.mongo.value.version + 1
  }

  predicate DocOk(s: State) {
    && (s.plain.Some? <==> s.mongo.Some?)
    && (s.cached.Some? ==> s.cached == s.mongo)
    && (s.mongo.Some? ==>
          && s.mongo.value.version >= 1
          && Deserialize(s.mongo.value) == Some(Versioned(s.plain.value, s.mongo.value.version))
          && s.plain.value.appState == None && NoNulls(s.plain.value.keys))
  }

  predicate NoAppState(k: Option<StoredKeys>) {
    k.Some? ==> k.value.appState == None
  }

  /** A version at which a get from Redis does not take it for a missing one. */
  predicate WarmShape(w: Warm) {
    w.data.version >= 1 && w.data.data.appState == None && (w.at.Pipeline? ==> NoAppState(w.at.current))
  }

  predicate RedisOk(s: State) {
    && (s.redis.creds.Some? ==> CredsOk(s, s.redis.creds.value))
    && (s.redis.keys.Some? ==> KeysOk(s, s.redis.keys.value.keys))
    && (s.redis.meta.Some? ==> VersionOk(s, s.redis.meta.value))
    && NoAppState(s.redis.keys)
  }

  predicate PurposeOk(s: State, p: Purpose) {
    p.SetKeys? ==> s.plain.Some?
  }

  /** A set knows the plain map's keys and a version no older than Mongo's. */
  predicate SetOk(s: State, p: Purpose, patch: AuthPatch, expected: int) {
    && PurposeOk(s, p) && !p.Look?
    && (s.mongo.None? ==> expected == 0)
    && (s.mongo.Some? ==> s.mongo.value.version <= expected <= s.mongo.value.version + 1)
    && (p.SaveCreds? ==> patch == AuthPatch(Some(p.creds), None, None))
    && (p.SetKeys? ==> patch == AuthPatch(None, Some(MergeKeys(s.plain.value.keys, p.data)), None))
  }

  predicate CallerOk(s: State) {
    match s.caller
    case Idle => true
    case AtCreds(p, meta) => PurposeOk(s, p) && (meta.Some? ==> VersionOk(s, meta.value))
    case AtKeys(p, meta, creds) =>
      PurposeOk(s, p) && (meta.Some? ==> VersionOk(s, meta.value)) && s.plain.Some? && creds == s.plain.value.creds
    case AtMongoRead(p) => PurposeOk(s, p)
    case AtRedisSet(p, patch, expected) => SetOk(s, p, patch, expected)
    case AtPipeline(p, patch, expected, current) =>
      && SetOk(s, p, patch, expected) && p.SetKeys? && NoAppState(current)
      && (current.Some? ==> Within(current.value.keys, patch.keys.value))
    case AtMongoSet(p, patch, expected) => SetOk(s, p, patch, expected)
    case AtMongoDelete => s.redis == NOTHING
  }

  /** Warmers may carry anything, old snapshots included. */
  predicate Inv(s: State) {
    DocOk(s) && RedisOk(s) && CallerOk(s) && forall i :: 0 <= i < |s.warms| ==> WarmShape(s.warms[i])
  }

  // ----- what a command must find -----

  /** The pipeline of this warmer writes nothing but what Redis is to show: its snapshot was not overtaken by a
      set or a delete, or by none that changed what will be looked at. */
  predicate WarmIsCurrent(s: State, i: nat)
    requires i < |s.warms| && s.warms[i].at.Pipeline?
  {
    var w := s.warms[i];
    var found := GetOr(w.at.current, StoredKeys(map[], None)).keys;
    && !s.caller.AtMongoDelete?
    && CredsOk(s, w.data.data.creds) && KeysOk(s, MergeKeys(found, w.data.data.keys))
    && VersionOk(s, w.data.version + 1)
  }

  /** keys.set finds nothing old in what it leaves in place: when it reads the keys to merge over, no ids beyond
      those it sends (such as the ids it deletes), and when it writes, no other creds. */
  predicate FindsNothingOld(s: State, step: Step) {
    && (step.ReadForMerge? && s.caller.AtRedisSet? && s.caller.patch.keys.Some? && s.redis.keys.Some? ==>
          Within(s.redis.keys.value.keys, s.caller.patch.keys.value))
    && (step.WriteRedis? && s.caller.AtPipeline? && s.redis.creds.Some? ==>
          s.plain.Some? && s.redis.creds.value == s.plain.value.creds)
  }

  predicate Orderly(s: State, step: Step) {
    && FindsNothingOld(s, step)
    && (step.WarmStep? && step.i < |s.warms| && s.warms[step.i].at.Pipeline? ==> WarmIsCurrent(s, step.i))
  }

  predicate OrderlyRun(s: State, steps: seq<Step>)
    requires EnabledRun(s, steps)
    decreases |steps|
  {
    steps == [] || (Orderly(s, steps[0]) && OrderlyRun(Next(s, steps[0]), steps[1..]))
  }

  // ----- gets -----

  /** The guard is exact: a get that found creds in Redis answers with the plain map under an acceptable
      version if and only if Redis showed the session whole. */
  lemma HotAnswerIsRightExactlyWhenWhole(s: State)
    requires Inv(s) && s.caller.AtKeys?
    ensures var answer := HotAnswer(s);
            && answer.Some? && s.plain.Some? && s.mongo.Some?
            && (&& answer.value.data == s.plain.value
                && s.mongo.value.version <= answer.value.version <= s.mongo.value.version + 1
                <==> SeesWhole(s))
  {
  }

  /** A get that found no creds in Redis answers from Mongo, and is always right. */
  lemma ColdAnswerIsRight(s: State)
    requires Inv(s)
    ensures MongoAnswer(s) == if s.plain.Some? then Some(Versioned(s.plain.value, s.mongo.value.version)) else None
  {
  }

  /** As long as one process writes a session, its document cache makes no difference to any answer. */
  lemma DroppingTheCachedDocumentIsInvisible(s: State)
    requires Inv(s)
    ensures var dropped := Next(s, DropCached);
            && dropped.cached == None && dropped == s.(cached := None)
            && MongoAnswer(dropped) == MongoAnswer(s)
  {
  }

  /** An answer that is the plain map takes the hook to a set that is in order. */
  predicate AnswerOk(s: State, read: Option<Versioned>) {
    && (read.Some? <==> s.plain.Some?)
    && (read.Some? ==>
          && read.value.data == s.plain.value && s.mongo.Some?
          && s.mongo.value.version <= read.value.version <= s.mongo.value.version + 1)
  }

  lemma AnsweredKeepsInv(s: State, read: Option<Versioned>)
    requires Inv(s) && (s.caller.AtKeys? || s.caller.AtMongoRead?) && AnswerOk(s, read)
    ensures Inv(s.(caller := Answered(s.caller.purpose, read)))
  {
    hide MergeKeys;
    hide Within;
  }

  /** The warmer a miss leaves behind, scribbled on by keys.set or not, changes nothing yet. */
  lemma ReadMongoKeepsInv(s: State, early: set<(string, string)>)
    requires Inv(s) && s.caller.AtMongoRead?
    ensures Inv(Next(s, ReadMongo(early)))
  {
    ColdAnswerIsRight(s);
    AnsweredKeepsInv(s, MongoAnswer(s));
    hide MergeKeys;
    hide Within;
    hide Scribbled;
    hide MongoAnswer;
  }

  // ----- warmers -----

  lemma OtherWarmsKeepInv(s: State, warms: seq<Warm>)
    requires Inv(s) && forall w :: w in warms ==> w in s.warms || WarmShape(w)
    ensures Inv(s.(warms := warms))
  {
    hide MergeKeys;
    hide Within;
    hide WarmShape;
  }

  lemma CurrentPipelineKeepsInv(s: State, i: nat)
    requires Inv(s) && i < |s.warms| && s.warms[i].at.Pipeline? && WarmIsCurrent(s, i)
    ensures var w := s.warms[i];
            Inv(s.(redis := WriteView(s.redis, w.at.current, FullPatch(w.data.data), Some(w.data.version))))
  {
    hide MergeKeys;
    hide Within;
    assert WarmShape(s.warms[i]);
  }

  /** A warmer, run outside the mutex, shows nothing but the plain map as long as it is current. */
  lemma WarmKeepsInv(s: State, i: nat)
    requires Inv(s) && i < |s.warms| && Orderly(s, WarmStep(i))
    ensures Inv(WarmNext(s, i))
  {
    var w := s.warms[i];
    var others := s.warms[..i] + s.warms[i + 1..];
    assert WarmShape(w);
    OtherWarmsKeepInv(s, others);
    match w.at
    case Check => OtherWarmsKeepInv(s, s.warms[i := w.(at := Merge)]);
    case Merge => OtherWarmsKeepInv(s, s.warms[i := w.(at := Pipeline(s.redis.keys))]);
    case Pipeline(current) =>
      var s1 := s.(redis := WriteView(s.redis, current, FullPatch(w.data.data), Some(w.data.version)));
      CurrentPipelineKeepsInv(s, i);
      hide WriteView;
      OtherWarmsKeepInv(s1, others);
  }

  // ----- sets -----

  /** The Redis part of a set leaves exactly what the caller means. */
  lemma WriteRedisKeepsInv(s: State)
    requires Inv(s) && Enabled(s, WriteRedis) && Orderly(s, WriteRedis)
    ensures Inv(Next(s, WriteRedis))
  {
    var c := s.caller;
    if c.AtPipeline? {
      MergeKeepsNoNulls(s.plain.value.keys, c.purpose.data);
      MergeOverwritesExactlyWithin(GetOr(c.current, StoredKeys(map[], None)).keys, c.patch.keys.value);
    }
    hide MergeKeys;
    hide NoNulls;
  }

  lemma WriteMongoKeepsInv(s: State, now: int, ttl: int)
    requires Inv(s) && s.caller.AtMongoSet?
    ensures Inv(Next(s, WriteMongo(now, ttl)))
    ensures StepKeepsPromise(s, WriteMongo(now, ttl))
  {
    if s.caller.purpose.SetKeys? {
      MergeKeepsNoNulls(s.plain.value.keys, s.caller.purpose.data);
    }
    hide MergeKeys;
    hide NoNulls;
    hide Within;
  }

  // ----- runs -----

  lemma QuietStepKeepsInv(s: State, step: Step)
    requires Inv(s) && Enabled(s, step) && Orderly(s, step)
    requires !step.ReadKeys? && !step.ReadMongo? && !step.WriteRedis? && !step.WriteMongo? && !step.WarmStep?
    ensures Inv(Next(s, step))
  {
    hide MergeKeys;
    hide Within;
  }

  lemma StepKeepsInv(s: State, step: Step)
    requires Inv(s) && Legal(s, step) && Orderly(s, step)
    ensures Inv(Next(s, step)) && StepKeepsPromise(s, step)
  {
    hide MergeKeys;
    hide Within;
    match step
    case ReadKeys =>
      HotAnswerIsRightExactlyWhenWhole(s);
      AnsweredKeepsInv(s, HotAnswer(s));
    case ReadMongo(early) =>
      ColdAnswerIsRight(s);
      ReadMongoKeepsInv(s, early);
    case WriteRedis => WriteRedisKeepsInv(s);
    case WriteMongo(now, ttl) => WriteMongoKeepsInv(s, now, ttl);
    case WarmStep(i) => WarmKeepsInv(s, i);
    case _ => QuietStepKeepsInv(s, step);
  }

  /** The hybrid store refines a plain map. In an orderly run every completed get answers exactly the plain
      map's creds and keys, the Redis version is the Mongo version or one more, no Mongo write meets a
      duplicate key and every set raises the version, if and only if every get that finds creds in Redis sees
      the session whole. */
  lemma {:induction false} RefinesThePlainMapExactlyWhenLegal(s: State, steps: seq<Step>)
    requires Inv(s) && EnabledRun(s, steps) && OrderlyRun(s, steps)
    ensures RunKeepsPromise(s, steps) <==> LegalRun(s, steps)
    decreases |steps|
  {
    if steps != [] {
      if Legal(s, steps[0]) {
        StepKeepsInv(s, steps[0]);
        RefinesThePlainMapExactlyWhenLegal(Next(s, steps[0]), steps[1..]);
      } else {
        HotAnswerIsRightExactlyWhenWhole(s);
      }
    }
  }
}
