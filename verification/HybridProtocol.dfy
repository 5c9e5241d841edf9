/** One session of the write-through hybrid store, command by command: a sequential caller using the hook,
    a Redis that loses keys at any moment, the document cache, and the asynchronous cache warmers. */
module HybridProtocol {
  import opened AuthTypes
  import opened RedisStore
  import opened MongoStore
  import opened HybridStore

  /** What the caller wants from the get it starts: to look, or to continue with saveCreds or keys.set. */
  datatype Purpose = Look | SaveCreds(creds: string) | SetKeys(data: KeyTable)

  /** Where the caller is; each constructor but Idle names the command to be sent next. */
  datatype Caller =
    | Idle
    | AtCreds(purpose: Purpose, meta: Option<int>)
    | AtKeys(purpose: Purpose, meta: Option<int>, creds: string)
    | AtMongoRead(purpose: Purpose)
    | AtRedisSet(purpose: Purpose, patch: AuthPatch, expected: int)
    | AtPipeline(purpose: Purpose, patch: AuthPatch, expected: int, current: Option<StoredKeys>)
    | AtMongoSet(purpose: Purpose, patch: AuthPatch, expected: int)
    | AtMongoDelete

  datatype WarmAt = Check | Merge | Pipeline(current: Option<StoredKeys>)
  datatype Warm = Warm(data: Versioned, at: WarmAt)

  /** `plain` is the map the store is to behave like; the code does not have it. */
  datatype State = State(
    redis: View, mongo: Option<Document>, cached: Option<Document>, warms: seq<Warm>, caller: Caller,
    plain: Option<AuthSnapshot>)

  const START := State(NOTHING, None, None, [], Idle, None)

  datatype Step =
    | Lose(creds: bool, keys: bool, meta: bool) // Redis keys expire or are evicted
    | DropCached                                // the cached document reaches its 5 seconds
    | Begin(purpose: Purpose)
    | ReadCreds | ReadKeys                      // the rest of a get that hits
    | ReadMongo(early: set<(string, string)>)   // the rest of one that misses; see Scribbled for `early`
    | ReadForMerge | WriteRedis                 // the Redis part of a set
    | WriteMongo(now: int, ttl: int)
    | WarmStep(i: nat)
    | WarmFails(i: nat)                         // its errors are swallowed
    | DeleteRedis | DeleteMongo

  function Lost<T>(o: Option<T>, lose: bool): Option<T> {
    if lose then None else o
  }

  /** A Mongo get; an unreadable document is a failure, which the hybrid get reports as a miss. */
  function MongoAnswer(s: State): Option<Versioned> {
    var read := ReadDocument(if s.cached.Some? then s.cached else s.mongo);
    if read.Ok? then read.value else None
  }

  /** What a get returns when its Redis read found creds. */
  function HotAnswer(s: State): Option<Versioned>
    requires s.caller.AtKeys?
  {
    ReadFields(View(Some(s.caller.creds), s.redis.keys, s.caller.meta), ReportedVersion(s.caller.meta))
  }

  /** The answer of the get this step completes. */
  function Answer(s: State, step: Step): Option<Versioned>
    requires Completes(s, step)
  {
    if step.ReadKeys? then HotAnswer(s) else MongoAnswer(s)
  }

  predicate Completes(s: State, step: Step) {
    (step.ReadKeys? && s.caller.AtKeys?) || (step.ReadMongo? && s.caller.AtMongoRead?)
  }

  /** The caller with a get's answer: the hook goes on to its set. */
  function Answered(purpose: Purpose, read: Option<Versioned>): Caller {
    match purpose
    case Look => Idle
    case SaveCreds(c) => AtRedisSet(purpose, AuthPatch(Some(c), None, None), HookVersion(read))
    case SetKeys(data) => AtRedisSet(purpose, HookPatch(read, data), HookVersion(read))
  }

  /** keys.set assigns into the tables of the snapshot it was given, which the warmer has not yet sent: types
      the snapshot lacks do not appear, and once an id of a type is deleted the type has a table of its own.
      `early` are the ids that come before such a deletion. */
  function Scribbled(table: KeyTable, data: KeyTable, early: set<(string, string)>): KeyTable {
    map t | t in table :: if t in data then MergeIds(table[t], Early(t, data[t], early)) else table[t]
  }

  function Early(t: string, ids: map<string, Value>, early: set<(string, string)>): map<string, Value> {
    map id | id in ids && ids[id] != Null && (Null in ids.Values ==> (t, id) in early) :: ids[id]
  }

  function Shared(data: Versioned, purpose: Purpose, early: set<(string, string)>): Versioned {
    if purpose.SetKeys? then data.(data := data.data.(keys := Scribbled(data.data.keys, purpose.data, early)))
    else data
  }

  /** What the warmer's snapshot holds after keys.set went over it, id by id: the ids set to a value, of types it
      has, and of these, where the data deletes something of the type, only those that come early; all others as
      they were. */
  lemma ScribbledLooksUp(table: KeyTable, data: KeyTable, early: set<(string, string)>, t: string, id: string)
    ensures Lookup(Scribbled(table, data, early), t, id)
         == if t in table && t in data && id in data[t] && data[t][id] != Null
               && ((forall x :: x in data[t] ==> data[t][x] != Null) || (t, id) in early)
            then Some(data[t][id]) else Lookup(table, t, id)
  {
    if t in data && Null in data[t].Values {
      var x :| x in data[t] && data[t][x] == Null;
    }
  }

  /** What a finished set means for the plain map. */
  function Effect(plain: Option<AuthSnapshot>, purpose: Purpose): Option<AuthSnapshot> {
    match purpose
    case Look => plain
    case SaveCreds(c) => Some(if plain.Some? then plain.value.(creds := c) else AuthSnapshot(c, map[], None))
    case SetKeys(data) => if plain.Some? then Some(plain.value.(keys := MergeKeys(plain.value.keys, data))) else None
  }

  /** The one hypothesis on the caller: keys.set only once the session has creds. Nobody waits for a warmer. */
  predicate Enabled(s: State, step: Step) {
    match step
    case Lose(_, _, _) => true
    case DropCached => true
    case Begin(purpose) => s.caller.Idle? && (purpose.SetKeys? ==> s.plain.Some?)
    case ReadCreds => s.caller.AtCreds?
    case ReadKeys => s.caller.AtKeys?
    case ReadMongo(_) => s.caller.AtMongoRead?
    case ReadForMerge => s.caller.AtRedisSet? && TouchesKeys(s.caller.patch)
    case WriteRedis => s.caller.AtPipeline? || (s.caller.AtRedisSet? && !TouchesKeys(s.caller.patch))
    case WriteMongo(_, _) => s.caller.AtMongoSet?
    case WarmStep(i) => i < |s.warms|
    case WarmFails(i) => i < |s.warms|
    case DeleteRedis => s.caller.Idle?
    case DeleteMongo => s.caller.AtMongoDelete?
  }

  function WarmNext(s: State, i: nat): State
    requires i < |s.warms|
  {
    var w := s.warms[i];
    var others := s.warms[..i] + s.warms[i + 1..];
    match w.at
    case Check =>
      if s.redis.meta.Some? && s.redis.meta.value >= w.data.version then s.(warms := others)
      else s.(warms := s.warms[i := w.(at := Merge)])
    case Merge => s.(warms := s.warms[i := w.(at := Pipeline(s.redis.keys))])
    case Pipeline(current) =>
      s.(redis := WriteView(s.redis, current, FullPatch(w.data.data), Some(w.data.version)), warms := others)
  }

  function MongoUpdates(c: Caller, now: int, ttl: int): Updates
    requires c.AtMongoSet?
  {
    UpdatesOf(c.patch, Some(c.expected), None, now, ttl)
  }

  function Next(s: State, step: Step): State
    requires Enabled(s, step)
  {
    var c := s.caller;
    match step
    case Lose(creds, keys, meta) =>
      s.(redis := View(Lost(s.redis.creds, creds), Lost(s.redis.keys, keys), Lost(s.redis.meta, meta)))
    case DropCached => s.(cached := None)
    case Begin(purpose) => s.(caller := AtCreds(purpose, s.redis.meta))
    case ReadCreds =>
      s.(caller := if s.redis.creds.Some? then AtKeys(c.purpose, c.meta, s.redis.creds.value)
                   else AtMongoRead(c.purpose))
    case ReadKeys => s.(caller := Answered(c.purpose, HotAnswer(s)))
    case ReadMongo(early) =>
      var read := MongoAnswer(s);
      State(s.redis, s.mongo, if s.cached.Some? then s.cached else s.mongo,
            if read.Some? then s.warms + [Warm(Shared(read.value, c.purpose, early), Check)] else s.warms,
            Answered(c.purpose, read), s.plain)
    case ReadForMerge => s.(caller := AtPipeline(c.purpose, c.patch, c.expected, s.redis.keys))
    case WriteRedis =>
      s.(redis := WriteView(s.redis, if c.AtPipeline? then c.current else None, c.patch, Some(c.expected)),
         caller := AtMongoSet(c.purpose, c.patch, c.expected))
    case WriteMongo(now, ttl) =>
      var doc := Upserted(s.mongo, MongoUpdates(c, now, ttl));
      State(s.redis, Some(doc), None, s.warms, Idle, Effect(s.plain, c.purpose))
    case WarmStep(i) => WarmNext(s, i)
    case WarmFails(i) => s.(warms := s.warms[..i] + s.warms[i + 1..])
    case DeleteRedis => s.(redis := NOTHING, caller := AtMongoDelete)
    case DeleteMongo => s.(mongo := None, cached := None, caller := Idle, plain := None)
  }

  /** The one thing the refinement needs of Redis: a get that found creds also finds the keys (or the
      session has none), and had found meta (or the version is still the first). */
  predicate SeesWhole(s: State)
    requires s.caller.AtKeys?
  {
    && (s.redis.keys.Some? || (s.plain.Some? && s.plain.value.keys == map[]))
    && (s.caller.meta.Some? || (s.mongo.Some? && s.mongo.value.version <= 1))
  }

  predicate Legal(s: State, step: Step) {
    Enabled(s, step) && (step.ReadKeys? ==> SeesWhole(s))
  }

  predicate EnabledRun(s: State, steps: seq<Step>)
    decreases |steps|
  {
    steps == [] || (Enabled(s, steps[0]) && EnabledRun(Next(s, steps[0]), steps[1..]))
  }

  predicate LegalRun(s: State, steps: seq<Step>)
    decreases |steps|
  {
    steps == [] || (Legal(s, steps[0]) && LegalRun(Next(s, steps[0]), steps[1..]))
  }

  function Run(s: State, steps: seq<Step>): State
    requires LegalRun(s, steps)
    decreases |steps|
  {
    if steps == [] then s else Run(Next(s, steps[0]), steps[1..])
  }

  /** What is promised of one step: a completed get answers with the plain map, under the Mongo version or
      one more; a Mongo write takes one upsert and raises the version. */
  predicate StepKeepsPromise(s: State, step: Step) {
    && (Completes(s, step) ==>
          var answer := Answer(s, step);
          && (answer.Some? <==> s.plain.Some?)
          && (answer.Some? ==>
                answer.value.data == s.plain.value && s.mongo.Some?
                && s.mongo.value.version <= answer.value.version <= s.mongo.value.version + 1))
    && (step.WriteMongo? && s.caller.AtMongoSet? ==>
          var u := MongoUpdates(s.caller, step.now, step.ttl);
          && FindOneAndUpdate(Moment(s.mongo, Healthy), Some(s.caller.expected), u) == Stored(Upserted(s.mongo, u))
          && (s.mongo.Some? ==> s.mongo.value.version < u.version))
  }

  /** Between sets the Redis version is the Mongo version or one more. */
  predicate VersionsAgree(s: State) {
    s.redis.meta.Some? && !s.caller.AtMongoSet? ==>
      s.mongo.Some? && s.mongo.value.version <= s.redis.meta.value <= s.mongo.value.version + 1
  }

  predicate RunKeepsPromise(s: State, steps: seq<Step>)
    requires EnabledRun(s, steps)
    decreases |steps|
  {
    && VersionsAgree(s)
    && (steps == [] || (StepKeepsPromise(s, steps[0]) && RunKeepsPromise(Next(s, steps[0]), steps[1..])))
  }
}
