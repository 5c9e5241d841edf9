/** Which timing of Redis losses, warmers and sets keeps the refinement, and that no other does. */
module HybridTiming {
  import opened AuthTypes
  import opened RedisStore
  import opened MongoStore
  import opened HybridStore
  import opened HybridProtocol
  import opened HybridRefinement

  predicate HasKeys(s: State) {
    s.plain.Some? && s.plain.value.keys != map[]
  }

  /** Losing the session hurts when it has keys and a get has just found its creds. */
  predicate LossHurts(s: State) {
    HasKeys(s) && s.caller.AtKeys?
  }

  /** saveCreds hurts when it writes to a Redis that does not show the session's keys. */
  predicate SaveHurts(s: State) {
    HasKeys(s) && s.caller.AtRedisSet? && s.redis.keys.None?
  }

  /** A current warmer hurts when it fills Redis after a get found no version there and before that get looks
      for creds, unless the version is the first. */
  predicate WarmHurts(s: State, i: nat) {
    && i < |s.warms| && s.warms[i].at.Pipeline?
    && s.caller.AtCreds? && s.caller.meta.None? && s.mongo.Some? && s.mongo.value.version > 1
  }

  /** Whenever Redis loses keys it loses all three. */
  predicate JointLoss(step: Step) {
    step.Lose? ==> step.creds && step.keys && step.meta
  }

  predicate Careful(s: State, step: Step) {
    && Enabled(s, step) && JointLoss(step) && Orderly(s, step)
    && (step.Lose? ==> !LossHurts(s))
    && (step.WriteRedis? ==> !SaveHurts(s))
    && (step.WarmStep? ==> !WarmHurts(s, step.i))
  }

  predicate CarefulRun(s: State, steps: seq<Step>)
    decreases |steps|
  {
    steps == [] || (Careful(s, steps[0]) && CarefulRun(Next(s, steps[0]), steps[1..]))
  }

  predicate HasVersion(s: State)
    requires s.caller.AtCreds? || s.caller.AtKeys?
  {
    s.caller.meta.Some? || (s.mongo.Some? && s.mongo.value.version <= 1)
  }

  /** Redis has no creds without meta and the session's keys, and a get on its way to creds has the version. */
  predicate Whole(s: State) {
    && (s.redis.creds.Some? ==>
          && s.redis.meta.Some?
          && (s.redis.keys.Some? || (Shown(s).Some? && Shown(s).value.keys == map[])))
    && (s.caller.AtCreds? && s.redis.creds.Some? ==> HasVersion(s))
    && (s.caller.AtKeys? ==> HasVersion(s) && (HasKeys(s) ==> s.redis.keys.Some?))
  }

  lemma CarefulWarmStaysWhole(s: State, i: nat)
    requires Inv(s) && Whole(s) && Careful(s, WarmStep(i))
    ensures Whole(WarmNext(s, i))
  {
    hide MergeKeys;
    hide Within;
  }

  lemma CarefulStepIsLegal(s: State, step: Step)
    requires Inv(s) && Whole(s) && Careful(s, step)
    ensures Legal(s, step) && Whole(Next(s, step))
  {
    hide MergeKeys;
    hide Within;
    hide WarmNext;
    if step.WarmStep? { CarefulWarmStaysWhole(s, step.i); }
    if step.ReadMongo? {
      ColdAnswerIsRight(s);
      hide Shared;
      hide MongoAnswer;
    }
  }

  /** Under such timing the store refines the plain map. */
  lemma {:induction false} CarefulRunsAreLegal(s: State, steps: seq<Step>)
    requires Inv(s) && Whole(s) && CarefulRun(s, steps)
    ensures LegalRun(s, steps) && EnabledRun(s, steps) && OrderlyRun(s, steps) && RunKeepsPromise(s, steps)
    decreases |steps|
  {
    if steps != [] {
      CarefulStepIsLegal(s, steps[0]);
      StepKeepsInv(s, steps[0]);
      CarefulRunsAreLegal(Next(s, steps[0]), steps[1..]);
    }
  }

  // ----- the timing is exact -----

  /** Some careful continuation breaks the refinement. */
  ghost predicate CanBreak(s: State) {
    exists rest :: CarefulRun(s, rest) && EnabledRun(s, rest) && !RunKeepsPromise(s, rest)
  }

  lemma CanBreakNow(s: State)
    requires !VersionsAgree(s)
    ensures CanBreak(s)
  {
    var rest: seq<Step> := [];
    assert CarefulRun(s, rest) && EnabledRun(s, rest) && !RunKeepsPromise(s, rest);
  }

  lemma CanBreakAfter(s: State, step: Step)
    requires Careful(s, step) && (CanBreak(Next(s, step)) || !StepKeepsPromise(s, step))
    ensures CanBreak(s)
  {
    var next := Next(s, step);
    var rest: seq<Step> := [];
    if CanBreak(next) {
      rest :| CarefulRun(next, rest) && EnabledRun(next, rest) && !RunKeepsPromise(next, rest);
    }
    assert CarefulRun(next, rest) && EnabledRun(next, rest);
    var run := [step] + rest;
    assert run != [] && run[0] == step && run[1..] == rest;
    hide Next;
    hide VersionsAgree;
    hide StepKeepsPromise;
    hide Orderly;
    assert CarefulRun(s, run) && EnabledRun(s, run);
    assert !(StepKeepsPromise(s, step) && RunKeepsPromise(next, rest));
    assert !RunKeepsPromise(s, run);
  }

  /** The next get's look at the keys, with something wrong in what it will answer. */
  predicate WillAnswerWrongly(s: State) {
    s.caller.AtKeys? &&
    var answer := HotAnswer(s).value;
    s.plain.None? || answer.data != s.plain.value
    || s.mongo.None? || !(s.mongo.value.version <= answer.version <= s.mongo.value.version + 1)
  }

  lemma WrongAnswerBreaks(s: State)
    requires WillAnswerWrongly(s)
    ensures CanBreak(s)
  {
    CanBreakAfter(s, ReadKeys);
  }

  /** A get finds something wrong in Redis. */
  lemma WrongReadBreaks(s: State)
    requires s.caller.AtCreds? && s.redis.creds.Some? && WillAnswerWrongly(Next(s, ReadCreds))
    ensures CanBreak(s)
  {
    WrongAnswerBreaks(Next(s, ReadCreds));
    CanBreakAfter(s, ReadCreds);
  }

  /** Redis shows creds together with wrong contents, and nobody is at work. */
  predicate WrongWhenIdle(s: State) {
    && s.caller.Idle? && s.redis.creds.Some? && s.plain.Some?
    && ReadFields(s.redis, 1).value.data != s.plain.value
  }

  lemma WrongIdleBreaks(s: State)
    requires WrongWhenIdle(s)
    ensures CanBreak(s)
  {
    WrongReadBreaks(Next(s, Begin(Look)));
    CanBreakAfter(s, Begin(Look));
  }

  /** A set is about to be written to Mongo over a Redis that shows something else. */
  lemma WrongSetBreaks(s: State)
    requires s.caller.AtMongoSet? && s.redis.creds.Some? && Shown(s).Some?
    requires ReadFields(s.redis, 1).value.data != Shown(s).value
    ensures CanBreak(s)
  {
    WrongIdleBreaks(Next(s, WriteMongo(0, 0)));
    CanBreakAfter(s, WriteMongo(0, 0));
  }

  /** saveCreds is about to write next to wrong keys. */
  lemma WrongKeysBreakSave(s: State)
    requires s.caller.AtRedisSet? && s.caller.purpose.SaveCreds?
    requires s.caller.patch == AuthPatch(Some(s.caller.purpose.creds), None, None)
    requires s.redis.keys.Some? && s.plain.Some? && s.redis.keys.value.keys != s.plain.value.keys
    ensures CanBreak(s)
  {
    WrongSetBreaks(Next(s, WriteRedis));
    CanBreakAfter(s, WriteRedis);
  }

  lemma WrongKeysBreakMiss(s: State)
    requires s.caller.AtMongoRead? && s.caller.purpose.SaveCreds?
    requires s.redis.keys.Some? && s.plain.Some? && s.redis.keys.value.keys != s.plain.value.keys
    ensures CanBreak(s)
  {
    hide MongoAnswer;
    hide Shared;
    WrongKeysBreakSave(Next(s, ReadMongo({})));
    CanBreakAfter(s, ReadMongo({}));
  }

  /** Wrong keys in an idle Redis: the next get finds them, or the next saveCreds brings them to light. */
  lemma WrongKeysBreakIdle(s: State)
    requires s.caller.Idle? && s.redis.keys.Some? && s.plain.Some? && s.redis.keys.value.keys != s.plain.value.keys
    ensures CanBreak(s)
  {
    if s.redis.creds.Some? {
      WrongIdleBreaks(s);
    } else {
      var s1 := Next(s, Begin(SaveCreds("creds")));
      WrongKeysBreakMiss(Next(s1, ReadCreds));
      CanBreakAfter(s1, ReadCreds);
      CanBreakAfter(s, Begin(SaveCreds("creds")));
    }
  }

  // ----- steps that are not careful -----

  lemma HurtfulLossBreaks(s: State)
    requires Inv(s) && LossHurts(s)
    ensures CanBreak(Next(s, Lose(true, true, true)))
  {
    WrongAnswerBreaks(Next(s, Lose(true, true, true)));
  }

  lemma HurtfulSaveBreaks(s: State)
    requires Inv(s) && Enabled(s, WriteRedis) && SaveHurts(s)
    ensures CanBreak(Next(s, WriteRedis))
  {
    hide MergeKeys;
    WrongSetBreaks(Next(s, WriteRedis));
  }

  /** keys.set writes next to old creds. */
  lemma OldCredsBreak(s: State)
    requires Inv(s) && s.caller.AtPipeline? && !FindsNothingOld(s, WriteRedis)
    ensures CanBreak(Next(s, WriteRedis))
  {
    hide MergeKeys;
    hide Within;
    WrongSetBreaks(Next(s, WriteRedis));
  }

  lemma LeftoversComeBack(s: State)
    requires s.caller.AtPipeline? && s.caller.purpose.SetKeys? && s.caller.patch.keys.Some? && s.plain.Some?
    requires s.caller.patch.keys.value == MergeKeys(s.plain.value.keys, s.caller.purpose.data)
    requires var found := GetOr(s.caller.current, StoredKeys(map[], None)).keys;
             MergeKeys(found, s.caller.patch.keys.value) != s.caller.patch.keys.value
    ensures CanBreak(s)
  {
    hide MergeKeys;
    var s1 := Next(s, Lose(true, true, true));
    var s2 := Next(s1, WriteRedis);
    WrongKeysBreakIdle(Next(s2, WriteMongo(0, 0)));
    CanBreakAfter(s2, WriteMongo(0, 0));
    CanBreakAfter(s1, WriteRedis);
    CanBreakAfter(s, Lose(true, true, true));
  }

  /** keys.set has read ids to merge over that it does not send, ids it deletes for instance. Even if Redis
      then loses the session, the write brings them back. */
  lemma LeftoverIdsBreak(s: State)
    requires Inv(s) && Enabled(s, ReadForMerge) && !FindsNothingOld(s, ReadForMerge)
    ensures CanBreak(Next(s, ReadForMerge))
  {
    var sent := s.caller.patch.keys.value;
    MergeKeepsNoNulls(s.plain.value.keys, s.caller.purpose.data);
    MergeOverwritesExactlyWithin(s.redis.keys.value.keys, sent);
    hide MergeKeys;
    hide Within;
    hide NoNulls;
    hide CanBreak;
    LeftoversComeBack(Next(s, ReadForMerge));
  }

  lemma HurtfulWarmBreaks(s: State, i: nat)
    requires Inv(s) && WarmHurts(s, i)
    ensures CanBreak(WarmNext(s, i))
  {
    hide MergeKeys;
    WrongReadBreaks(WarmNext(s, i));
  }

  /** A warmer overtaken by a set or a delete: its version is too low, or its contents will be looked at. */
  lemma OvertakenWarmBreaks(s: State, i: nat)
    requires Inv(s) && i < |s.warms| && s.warms[i].at.Pipeline? && !WarmIsCurrent(s, i)
    ensures CanBreak(WarmNext(s, i))
  {
    assert WarmShape(s.warms[i]);
    var next := WarmNext(s, i);
    var data := s.warms[i].data;
    if s.caller.AtMongoDelete? {
      CanBreakNow(Next(next, DeleteMongo));
      CanBreakAfter(next, DeleteMongo);
    } else if !VersionOk(s, data.version + 1) {
      OldVersionBreaks(s, i);
    } else {
      OldContentsBreak(s, i);
    }
  }

  lemma OldVersionBreaks(s: State, i: nat)
    requires Inv(s) && i < |s.warms| && s.warms[i].at.Pipeline? && !VersionOk(s, s.warms[i].data.version + 1)
    ensures CanBreak(WarmNext(s, i))
  {
    hide MergeKeys;
    hide Within;
    var next := WarmNext(s, i);
    if s.caller.AtMongoSet? {
      CanBreakNow(Next(next, WriteMongo(0, 0)));
      CanBreakAfter(next, WriteMongo(0, 0));
    } else {
      CanBreakNow(next);
    }
  }

  lemma OldContentsBreak(s: State, i: nat)
    requires Inv(s) && i < |s.warms| && s.warms[i].at.Pipeline? && VersionOk(s, s.warms[i].data.version + 1)
    requires !s.caller.AtMongoDelete? && !WarmIsCurrent(s, i)
    ensures CanBreak(WarmNext(s, i))
  {
    hide MergeKeys;
    hide Within;
    var next := WarmNext(s, i);
    match s.caller
    case Idle => WrongIdleBreaks(next);
    case AtCreds(_, _) => WrongReadBreaks(next);
    case AtKeys(p, _, _) =>
      if WillAnswerWrongly(next) {
        WrongAnswerBreaks(next);
      } else {
        WrongIdleBreaks(Next(next, ReadKeys));
        CanBreakAfter(next, ReadKeys);
      }
    case AtMongoRead(p) =>
      if p.Look? {
        WrongIdleBreaks(Next(next, ReadMongo({})));
        CanBreakAfter(next, ReadMongo({}));
      } else {
        WrongKeysBreakMiss(next);
      }
    case AtRedisSet(_, _, _) => WrongKeysBreakSave(next);
    case AtMongoSet(_, _, _) => WrongSetBreaks(next);
  }

  /** The timing condition is exact: from a state that is whole, with joint losses only, a step is followed by
      careful runs that all refine the plain map if and only if the step is careful itself. */
  lemma StepIsSafeExactlyWhenCareful(s: State, step: Step)
    requires Inv(s) && Whole(s) && Enabled(s, step) && JointLoss(step)
    ensures Careful(s, step) <==> !CanBreak(Next(s, step))
  {
    hide MergeKeys;
    hide Within;
    if Careful(s, step) {
      CarefulStepIsLegal(s, step);
      StepKeepsInv(s, step);
      var next := Next(s, step);
      forall rest | CarefulRun(next, rest) ensures EnabledRun(next, rest) && RunKeepsPromise(next, rest) {
        CarefulRunsAreLegal(next, rest);
      }
    } else if step.Lose? {
      HurtfulLossBreaks(s);
    } else if step.WarmStep? {
      if WarmHurts(s, step.i) { HurtfulWarmBreaks(s, step.i); } else { OvertakenWarmBreaks(s, step.i); }
    } else if step.ReadForMerge? {
      LeftoverIdsBreak(s);
    } else if s.caller.AtPipeline? {
      OldCredsBreak(s);
    } else {
      HurtfulSaveBreaks(s);
    }
  }
}
