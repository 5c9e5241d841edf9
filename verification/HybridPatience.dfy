/** Callers that let each warmer finish before they write: for them joint losses alone can hurt. */
module HybridPatience {
  import opened AuthTypes
  import opened RedisStore
  import opened MongoStore
  import opened HybridStore
  import opened HybridProtocol
  import opened HybridRefinement
  import opened HybridTiming

  /** keys.set only adds or overwrites; every warmer ends, without failing, before a set or a delete touches
      Redis; Redis loses the three keys together, at any moment but between a get's look at the creds and at the
      keys, or before saveCreds writes with no warmer left, of a session that has keys. */
  predicate Timely(s: State, step: Step) {
    && Enabled(s, step) && JointLoss(step)
    && (step.Begin? && step.purpose.SetKeys? ==> NoNulls(step.purpose.data))
    && (step.ReadForMerge? || step.DeleteRedis? || (step.WriteRedis? && s.caller.AtRedisSet?) ==> s.warms == [])
    && !step.WarmFails?
    && (step.Lose? ==> !LossHurts(s) && !(HasKeys(s) && AtSave(s) && s.warms == []))
    && (step.WarmStep? ==> !WarmHurts(s, step.i))
  }

  predicate AtSave(s: State) {
    s.caller.AtRedisSet? && s.caller.purpose.SaveCreds?
  }

  predicate TimelyRun(s: State, steps: seq<Step>)
    decreases |steps|
  {
    steps == [] || (Timely(s, steps[0]) && TimelyRun(Next(s, steps[0]), steps[1..]))
  }

  // ----- what patience keeps -----

  predicate BeforePipeline(c: Caller) {
    (c.AtRedisSet? || c.AtPipeline?) && c.purpose.SetKeys?
  }

  /** A table in Redis or on its way there. While keys.set has not sent its own yet, a warmer may show some
      of its ids early. */
  predicate TableOk(s: State, k: KeyTable) {
    Shown(s).Some? &&
    (if BeforePipeline(s.caller) then Within(k, MergeKeys(s.plain.value.keys, s.caller.purpose.data))
     else k == Shown(s).value.keys)
  }

  predicate WarmOk(s: State, w: Warm) {
    && s.mongo.Some? && s.plain.Some?
    && w.data.version == s.mongo.value.version && w.data.data.creds == s.plain.value.creds
    && TableOk(s, w.data.data.keys)
    && (w.at.Pipeline? && w.at.current.Some? ==> TableOk(s, w.at.current.value.keys))
  }

  predicate WarmsOk(s: State) {
    && (s.caller.AtPipeline? || s.caller.AtMongoSet? || s.caller.AtMongoDelete? ==> s.warms == [])
    && (forall i :: 0 <= i < |s.warms| ==> WarmOk(s, s.warms[i]))
  }

  predicate RedisCurrent(s: State) {
    && (s.redis.creds.Some? ==> Shown(s).Some? && s.redis.creds.value == Shown(s).value.creds)
    && (s.redis.keys.Some? ==> TableOk(s, s.redis.keys.value.keys))
    && (s.redis.meta.Some? ==> s.redis.keys.Some? || (Shown(s).Some? && Shown(s).value.keys == map[]))
    && (HasKeys(s) && s.caller.AtKeys? ==> s.redis.meta.Some?)
    && (HasKeys(s) && AtSave(s) ==> s.redis.meta.Some? || s.warms != [])
  }

  predicate AddsOnly(c: Caller) {
    !c.Idle? && !c.AtMongoDelete? && c.purpose.SetKeys? ==> NoNulls(c.purpose.data)
  }

  predicate Patient(s: State) {
    WarmsOk(s) && RedisCurrent(s) && AddsOnly(s.caller)
  }

  // ----- tables -----

  lemma MergeStaysWithin(k: KeyTable, l: KeyTable, t: KeyTable)
    requires Within(k, t) && Within(l, t)
    ensures Within(MergeKeys(k, l), t)
  {
  }

  /** The table keys.set sends covers the plain one and what it scribbled on the shared snapshot. */
  lemma SentTableCovers(plain: KeyTable, data: KeyTable, early: set<(string, string)>)
    requires NoNulls(plain) && NoNulls(data)
    ensures NoNulls(MergeKeys(plain, data))
    ensures Within(plain, MergeKeys(plain, data)) && Within(Scribbled(plain, data, early), MergeKeys(plain, data))
  {
    MergeKeepsNoNulls(plain, data);
    var sent := MergeKeys(plain, data);
    forall x | x in plain ensures plain[x].Keys <= sent[x].Keys {
    }
    forall x | x in plain ensures Scribbled(plain, data, early)[x].Keys <= sent[x].Keys {
    }
  }

  /** The table a patient caller's warmer writes: the snapshot's merged over what it found. */
  lemma WarmedTableOk(s: State, current: Option<StoredKeys>, k: KeyTable)
    requires Inv(s) && TableOk(s, k) && !s.caller.AtMongoSet?
    requires current.Some? ==> TableOk(s, current.value.keys)
    ensures TableOk(s, MergeKeys(GetOr(current, StoredKeys(map[], None)).keys, k))
  {
    var found := GetOr(current, StoredKeys(map[], None)).keys;
    if BeforePipeline(s.caller) {
      MergeStaysWithin(found, k, MergeKeys(s.plain.value.keys, s.caller.purpose.data));
    } else {
      MergeOverwritesExactlyWithin(found, k);
    }
  }

  // ----- steps -----

  lemma TimelyWarmIsCareful(s: State, i: nat)
    requires Inv(s) && Patient(s) && Timely(s, WarmStep(i))
    ensures Careful(s, WarmStep(i))
  {
    var w := s.warms[i];
    assert WarmOk(s, w) && WarmShape(w);
    if w.at.Pipeline? {
      WarmedTableOk(s, w.at.current, w.data.data.keys);
    }
    hide MergeKeys;
    hide Within;
  }

  lemma TimelyWarmKeepsRedis(s: State, i: nat)
    requires Inv(s) && Patient(s) && Timely(s, WarmStep(i))
    ensures RedisCurrent(WarmNext(s, i))
  {
    var w := s.warms[i];
    assert WarmOk(s, w);
    if w.at.Pipeline? {
      WarmedTableOk(s, w.at.current, w.data.data.keys);
    }
    hide MergeKeys;
    hide Within;
    hide Inv;
    hide Orderly;
  }

  /** Redis and the other warmers play no part in it. */
  lemma WarmStaysOk(s: State, s': State, w: Warm)
    requires WarmOk(s, w) && s'.mongo == s.mongo && s'.plain == s.plain && s'.caller == s.caller
    ensures WarmOk(s', w)
  {
  }

  lemma TimelyWarmKeepsWarms(s: State, i: nat)
    requires Patient(s) && Timely(s, WarmStep(i))
    ensures WarmsOk(WarmNext(s, i))
  {
    var w, next := s.warms[i], WarmNext(s, i);
    assert WarmOk(s, w);
    assert w.at.Check? ==> WarmOk(s, w.(at := Merge));
    assert w.at.Merge? ==> WarmOk(s, w.(at := Pipeline(s.redis.keys)));
    hide WarmOk;
    hide WriteView;
    hide RedisCurrent;
    hide Orderly;
    forall j | 0 <= j < |next.warms| ensures WarmOk(next, next.warms[j]) {
      assert WarmOk(s, s.warms[if |next.warms| == |s.warms| || j < i then j else j + 1]);
      WarmStaysOk(s, next, next.warms[j]);
    }
  }

  lemma TimelyWarm(s: State, i: nat)
    requires Inv(s) && Patient(s) && Timely(s, WarmStep(i))
    ensures Careful(s, WarmStep(i)) && Patient(WarmNext(s, i))
  {
    TimelyWarmIsCareful(s, i);
    TimelyWarmKeepsRedis(s, i);
    TimelyWarmKeepsWarms(s, i);
    hide MergeKeys;
    hide Within;
    hide Inv;
    hide RedisCurrent;
    hide WarmsOk;
  }

  lemma TimelyAnswer(s: State, step: Step)
    requires Inv(s) && Whole(s) && Patient(s) && Timely(s, step) && (step.ReadKeys? || step.ReadMongo?)
    ensures Patient(Next(s, step))
  {
    var p := s.caller.purpose;
    if p.SetKeys? {
      SentTableCovers(s.plain.value.keys, p.data, if step.ReadMongo? then step.early else {});
    }
    HotOrCold(s, step);
    hide MergeKeys;
    hide Within;
    hide Scribbled;
    hide MongoAnswer;
    var next := Next(s, step);
    forall j | 0 <= j < |next.warms| ensures WarmOk(next, next.warms[j]) {
      if j < |s.warms| {
        assert WarmOk(s, s.warms[j]);
      } else {
        assert next.warms[j].data == Shared(MongoAnswer(s).value, p, step.early);
      }
    }
  }

  lemma HotOrCold(s: State, step: Step)
    requires Inv(s) && Whole(s) && Completes(s, step)
    ensures AnswerOk(s, Answer(s, step))
    ensures step.ReadMongo? ==>
      MongoAnswer(s) == if s.plain.Some? then Some(Versioned(s.plain.value, s.mongo.value.version)) else None
  {
    if step.ReadKeys? { HotAnswerIsRightExactlyWhenWhole(s); } else { ColdAnswerIsRight(s); }
  }

  lemma TimelySet(s: State, step: Step)
    requires Inv(s) && Whole(s) && Patient(s) && Timely(s, step)
    requires step.ReadForMerge? || step.WriteRedis? || step.WriteMongo?
    ensures Careful(s, step) && Patient(Next(s, step))
  {
    var c := s.caller;
    if c.AtPipeline? {
      MergeKeepsNoNulls(s.plain.value.keys, c.purpose.data);
      MergeOverwritesExactlyWithin(GetOr(c.current, StoredKeys(map[], None)).keys, c.patch.keys.value);
    }
    hide MergeKeys;
    hide Within;
    hide NoNulls;
  }

  lemma TimelyQuiet(s: State, step: Step)
    requires Inv(s) && Whole(s) && Patient(s) && Timely(s, step)
    requires step.Lose? || step.DropCached? || step.Begin? || step.ReadCreds? || step.DeleteRedis? || step.DeleteMongo?
    ensures Careful(s, step) && Patient(Next(s, step))
  {
    hide MergeKeys;
    hide Within;
    hide NoNulls;
    var next := Next(s, step);
    forall j | 0 <= j < |next.warms| ensures WarmOk(next, next.warms[j]) {
      assert WarmOk(s, s.warms[j]);
    }
  }

  lemma TimelyStepIsCareful(s: State, step: Step)
    requires Inv(s) && Whole(s) && Patient(s) && Timely(s, step)
    ensures Careful(s, step) && Patient(Next(s, step))
  {
    hide Patient;
    match step
    case WarmStep(i) => TimelyWarm(s, i);
    case ReadKeys => TimelyAnswer(s, step);
    case ReadMongo(_) => TimelyAnswer(s, step);
    case ReadForMerge => TimelySet(s, step);
    case WriteRedis => TimelySet(s, step);
    case WriteMongo(_, _) => TimelySet(s, step);
    case _ => TimelyQuiet(s, step);
  }

  /** Patient callers get a plain map: their runs are careful, so every promise is kept. */
  lemma {:induction false} TimelyRunsAreCareful(s: State, steps: seq<Step>)
    requires Inv(s) && Whole(s) && Patient(s) && TimelyRun(s, steps)
    ensures CarefulRun(s, steps) && EnabledRun(s, steps) && RunKeepsPromise(s, steps)
    decreases |steps|
  {
    if steps != [] {
      var next := Next(s, steps[0]);
      TimelyStepIsCareful(s, steps[0]);
      CarefulStepIsLegal(s, steps[0]);
      StepKeepsInv(s, steps[0]);
      TimelyRunsAreCareful(next, steps[1..]);
    }
  }

  lemma StartIsPatient()
    ensures Inv(START) && Whole(START) && Patient(START)
  {
  }
  /** So from the empty store on they see nothing but the map. */
  lemma PatientCallersGetAPlainMap(steps: seq<Step>)
    requires TimelyRun(START, steps)
    ensures EnabledRun(START, steps) && RunKeepsPromise(START, steps)
  {
    StartIsPatient();
    TimelyRunsAreCareful(START, steps);
  }
}
