/** Runs in which the write-through store stops behaving like a plain map, and what brings them about. */
module HybridPitfalls {
  import opened AuthTypes
  import opened RedisStore
  import opened MongoStore
  import opened HybridStore
  import opened HybridProtocol
  import opened HybridRefinement

  /** Redis loses the session between saveCreds' get and its write: the creds come back alone, and the next
      get answers with no keys although the session has some. */
  lemma LossBeforeSaveCredsHidesTheKeys(s: State, now: int, ttl: int)
    requires Inv(s) && s.caller.AtRedisSet? && s.caller.purpose.SaveCreds? && s.redis == NOTHING
    requires s.plain.Some? && s.plain.value.keys != map[]
    ensures var s1 := Next(s, WriteRedis);
            var s2 := Next(s1, WriteMongo(now, ttl));
            var s3 := Next(s2, Begin(Look));
            var s4 := Next(s3, ReadCreds);
            && s4.caller.AtKeys? && s4.plain == Effect(s.plain, s.caller.purpose)
            && HotAnswer(s4).value.data.keys == map[] != s4.plain.value.keys
  {
    hide MergeKeys;
  }

  lemma OneMore(s: State, step: Step, rest: seq<Step>)
    requires Legal(s, step) && LegalRun(Next(s, step), rest)
    ensures LegalRun(s, [step] + rest) && Run(s, [step] + rest) == Run(Next(s, step), rest)
  {
    assert ([step] + rest)[1..] == rest;
  }

  lemma {:induction false} RunConcat(s: State, a: seq<Step>, b: seq<Step>)
    requires LegalRun(s, a) && LegalRun(Run(s, a), b)
    ensures LegalRun(s, a + b) && Run(s, a + b) == Run(Run(s, a), b)
    decreases |a|
  {
    if a == [] {
      assert a + b == b;
    } else {
      RunConcat(Next(s, a[0]), a[1..], b);
      assert a + b == [a[0]] + (a[1..] + b);
      OneMore(s, a[0], a[1..] + b);
    }
  }

  function FirstSave(now: int, ttl: int): seq<Step> {
    [Begin(SaveCreds("a")), ReadCreds, ReadMongo({}), WriteRedis, WriteMongo(now, ttl)]
  }

  function KeysRead(data: KeyTable): seq<Step> {
    [Begin(SetKeys(data)), ReadCreds, ReadKeys]
  }

  function KeysWrite(now: int, ttl: int): seq<Step> {
    [ReadForMerge, WriteRedis, WriteMongo(now, ttl)]
  }

  function LossyRead(): seq<Step> {
    [Begin(SaveCreds("b")), ReadCreds, ReadKeys, Lose(true, true, true)]
  }

  function SaveAndLook(now: int, ttl: int): seq<Step> {
    [WriteRedis, WriteMongo(now, ttl), Begin(Look), ReadCreds]
  }

  /** A settled session at some version, whole in Redis; `keys` is None before the first keys are set. */
  function Settled(creds: string, keys: Option<KeyTable>, version: int, now: int, ttl: int): State {
    State(View(Some(creds), if keys.Some? then Some(StoredKeys(keys.value, None)) else None, Some(version)),
          Some(Document(version, Some(creds), keys, None, None, now, now, now + ttl * 1000)), None, [], Idle,
          Some(AuthSnapshot(creds, GetOr(keys, map[]), None)))
  }

  lemma FirstSaveSettles(now: int, ttl: int)
    ensures LegalRun(START, FirstSave(now, ttl))
    ensures Run(START, FirstSave(now, ttl)) == Settled("a", None, 1, now, ttl)
  {
    var s1 := Next(START, Begin(SaveCreds("a")));
    var s2 := Next(s1, ReadCreds);
    var s3 := Next(s2, ReadMongo({}));
    var s4 := Next(s3, WriteRedis);
    OneMore(s4, WriteMongo(now, ttl), []);
    OneMore(s3, WriteRedis, [WriteMongo(now, ttl)]);
    OneMore(s2, ReadMongo({}), [WriteRedis, WriteMongo(now, ttl)]);
    OneMore(s1, ReadCreds, [ReadMongo({}), WriteRedis, WriteMongo(now, ttl)]);
  }

  function Setting(data: KeyTable, now: int, ttl: int): State {
    Settled("a", None, 1, now, ttl).(caller := AtRedisSet(SetKeys(data), AuthPatch(None, Some(data), None), 1))
  }

  lemma KeysReadGoesOn(data: KeyTable, now: int, ttl: int)
    requires NoNulls(data)
    ensures LegalRun(Settled("a", None, 1, now, ttl), KeysRead(data))
    ensures Run(Settled("a", None, 1, now, ttl), KeysRead(data)) == Setting(data, now, ttl)
  {
    MergeIdempotent(data);
    hide MergeKeys;
    var s1 := Next(Settled("a", None, 1, now, ttl), Begin(SetKeys(data)));
    var s2 := Next(s1, ReadCreds);
    OneMore(s2, ReadKeys, []);
    OneMore(s1, ReadCreds, [ReadKeys]);
  }

  lemma KeysWriteSettles(data: KeyTable, now: int, ttl: int)
    requires NoNulls(data)
    ensures LegalRun(Setting(data, now, ttl), KeysWrite(now, ttl))
    ensures Run(Setting(data, now, ttl), KeysWrite(now, ttl)) == Settled("a", Some(data), 2, now, ttl)
  {
    MergeIdempotent(data);
    hide MergeKeys;
    var s1 := Next(Setting(data, now, ttl), ReadForMerge);
    var s2 := Next(s1, WriteRedis);
    OneMore(s2, WriteMongo(now, ttl), []);
    OneMore(s1, WriteRedis, [WriteMongo(now, ttl)]);
  }

  function Robbed(data: KeyTable, now: int, ttl: int): State {
    Settled("a", Some(data), 2, now, ttl).(
      redis := NOTHING, caller := AtRedisSet(SaveCreds("b"), AuthPatch(Some("b"), None, None), 2))
  }

  lemma LossyReadRobs(data: KeyTable, now: int, ttl: int)
    ensures LegalRun(Settled("a", Some(data), 2, now, ttl), LossyRead())
    ensures Run(Settled("a", Some(data), 2, now, ttl), LossyRead()) == Robbed(data, now, ttl)
  {
    var s1 := Next(Settled("a", Some(data), 2, now, ttl), Begin(SaveCreds("b")));
    var s2 := Next(s1, ReadCreds);
    var s3 := Next(s2, ReadKeys);
    OneMore(s3, Lose(true, true, true), []);
    OneMore(s2, ReadKeys, [Lose(true, true, true)]);
    OneMore(s1, ReadCreds, [ReadKeys, Lose(true, true, true)]);
  }

  lemma SaveAfterLossHidesTheKeys(data: KeyTable, now: int, ttl: int)
    ensures LegalRun(Robbed(data, now, ttl), SaveAndLook(now, ttl))
    ensures var s := Run(Robbed(data, now, ttl), SaveAndLook(now, ttl));
            && s.caller == AtKeys(Look, Some(3), "b") && s.redis.keys == None
            && s.plain == Some(AuthSnapshot("b", data, None))
  {
    var s1 := Next(Robbed(data, now, ttl), WriteRedis);
    var s2 := Next(s1, WriteMongo(now, ttl));
    var s3 := Next(s2, Begin(Look));
    OneMore(s3, ReadCreds, []);
    OneMore(s2, Begin(Look), [ReadCreds]);
    OneMore(s1, WriteMongo(now, ttl), [Begin(Look), ReadCreds]);
  }

  /** Losing the three keys together, with the first write carrying creds and every warm done, is not enough:
      creds are saved, keys are set, Redis loses the session while the creds are saved again, and the next
      get, at its last read, answers with no keys. */
  lemma JointLossIsNotEnough(data: KeyTable, now: int, ttl: int)
    requires NoNulls(data) && data != map[]
    ensures var steps := FirstSave(now, ttl) + KeysRead(data) + KeysWrite(now, ttl)
                         + LossyRead() + SaveAndLook(now, ttl);
            && LegalRun(START, steps)
            && var s := Run(START, steps);
            && s.caller.AtKeys? && s.plain == Some(AuthSnapshot("b", data, None))
            && HotAnswer(s) == Some(Versioned(AuthSnapshot("b", map[], None), 3))
  {
    hide FirstSave;
    hide KeysRead;
    hide KeysWrite;
    hide LossyRead;
    hide SaveAndLook;
    hide Robbed;
    hide Settled;
    hide Setting;
    FirstSaveSettles(now, ttl);
    KeysReadGoesOn(data, now, ttl);
    KeysWriteSettles(data, now, ttl);
    LossyReadRobs(data, now, ttl);
    SaveAfterLossHidesTheKeys(data, now, ttl);
    var steps := FirstSave(now, ttl);
    RunConcat(START, steps, KeysRead(data));
    steps := steps + KeysRead(data);
    RunConcat(START, steps, KeysWrite(now, ttl));
    steps := steps + KeysWrite(now, ttl);
    RunConcat(START, steps, LossyRead());
    steps := steps + LossyRead();
    RunConcat(START, steps, SaveAndLook(now, ttl));
  }

  /** A warmer that fills Redis between a get's read of meta and its read of creds makes the get report
      version 1; a set with that version collides in Mongo, and its retry puts the version back to 2. */
  lemma WarmDuringAGetForgetsTheVersion(s: State, i: nat, patch: AuthPatch, now: int, ttl: int, maxRetries: nat)
    requires Inv(s) && s.caller.AtCreds? && s.caller.meta.None? && i < |s.warms| && s.warms[i].at.Pipeline?
    requires s.mongo.Some? && s.mongo.value.version >= 2
    ensures var hit := Next(WarmNext(s, i), ReadCreds);
            var u := UpdatesOf(patch, Some(1), None, now, ttl);
            && hit.caller.AtKeys? && HotAnswer(hit).value.version == 1
            && FindOneAndUpdate(Moment(s.mongo, Healthy), Some(1), u) == DuplicateKey
            && SetOutcome(Quiet(s.mongo), Some(1), u, 0, maxRetries) == Outcome(2, Stored(Upserted(s.mongo, u)))
            && Upserted(s.mongo, u).version == 2
  {
    StaleWritesWin(s.mongo, Some(1), UpdatesOf(patch, Some(1), None, now, ttl), maxRetries);
  }

  /** A get that misses Redis and leaves its warmer behind. */
  function MissedLook(): seq<Step> {
    [Lose(true, true, true), Begin(Look), ReadCreds, ReadMongo({})]
  }

  /** The warmer gets as far as its pipeline, which then comes between the first two reads of a get. */
  function OvertakenLook(): seq<Step> {
    [WarmStep(0), WarmStep(0), Begin(Look), WarmStep(0), ReadCreds]
  }

  function Warming(data: KeyTable, now: int, ttl: int): State {
    var s := Settled("a", Some(data), 2, now, ttl);
    s.(redis := NOTHING, cached := s.mongo,
       warms := [Warm(Versioned(AuthSnapshot("a", data, None), 2), Check)])
  }

  lemma MissedLookRuns(data: KeyTable, now: int, ttl: int)
    ensures LegalRun(Settled("a", Some(data), 2, now, ttl), MissedLook())
    ensures Run(Settled("a", Some(data), 2, now, ttl), MissedLook()) == Warming(data, now, ttl)
  {
    hide MergeKeys;
    var s1 := Next(Settled("a", Some(data), 2, now, ttl), Lose(true, true, true));
    var s2 := Next(s1, Begin(Look));
    var s3 := Next(s2, ReadCreds);
    OneMore(s3, ReadMongo({}), []);
    OneMore(s2, ReadCreds, [ReadMongo({})]);
    OneMore(s1, Begin(Look), [ReadCreds, ReadMongo({})]);
  }

  lemma OvertakenLookRuns(data: KeyTable, now: int, ttl: int)
    ensures LegalRun(Warming(data, now, ttl), OvertakenLook())
    ensures var s := Run(Warming(data, now, ttl), OvertakenLook());
            && s.caller == AtKeys(Look, None, "a") && s.mongo == Warming(data, now, ttl).mongo
            && s.plain == Some(AuthSnapshot("a", data, None))
  {
    hide MergeKeys;
    var s1 := Next(Warming(data, now, ttl), WarmStep(0));
    var s2 := Next(s1, WarmStep(0));
    var s3 := Next(s2, Begin(Look));
    var s4 := Next(s3, WarmStep(0));
    OneMore(s4, ReadCreds, []);
    OneMore(s3, WarmStep(0), [ReadCreds]);
    OneMore(s2, Begin(Look), [WarmStep(0), ReadCreds]);
    OneMore(s1, WarmStep(0), [Begin(Look), WarmStep(0), ReadCreds]);
  }

  /** Such a get happens: creds are saved, keys are set, Redis loses the session, one get misses and a second
      one is overtaken by the first one's warmer; it reports version 1 of a session at version 2. */
  lemma OvertakenGetReportsVersionOne(data: KeyTable, now: int, ttl: int)
    requires NoNulls(data)
    ensures var steps := FirstSave(now, ttl) + KeysRead(data) + KeysWrite(now, ttl) + MissedLook() + OvertakenLook();
            && LegalRun(START, steps)
            && var s := Run(START, steps);
            && s.caller.AtKeys? && HotAnswer(s).value.version == 1
            && s.mongo.Some? && s.mongo.value.version == 2
  {
    FirstSaveSettles(now, ttl);
    KeysReadGoesOn(data, now, ttl);
    KeysWriteSettles(data, now, ttl);
    MissedLookRuns(data, now, ttl);
    OvertakenLookRuns(data, now, ttl);
    assert Warming(data, now, ttl).mongo.value.version == 2;
    hide FirstSave;
    hide KeysRead;
    hide KeysWrite;
    hide MissedLook;
    hide OvertakenLook;
    hide Settled;
    hide Setting;
    hide Warming;
    var steps := FirstSave(now, ttl);
    RunConcat(START, steps, KeysRead(data));
    steps := steps + KeysRead(data);
    RunConcat(START, steps, KeysWrite(now, ttl));
    steps := steps + KeysWrite(now, ttl);
    RunConcat(START, steps, MissedLook());
    steps := steps + MissedLook();
    RunConcat(START, steps, OvertakenLook());
  }

  /** saveCreds to a Redis that lost the session: its get misses and leaves a warmer behind. */
  function MissedSave(): seq<Step> {
    [Lose(true, true, true), Begin(SaveCreds("b")), ReadCreds, ReadMongo({})]
  }

  /** The set does not wait; the warmer then finds a newer version and ends. */
  function OvertakingSave(now: int, ttl: int): seq<Step> {
    [WriteRedis, WriteMongo(now, ttl), WarmStep(0), Begin(Look), ReadCreds]
  }

  function Overtaking(data: KeyTable, now: int, ttl: int): State {
    var s := Settled("a", Some(data), 2, now, ttl);
    s.(redis := NOTHING, cached := s.mongo,
       warms := [Warm(Versioned(AuthSnapshot("a", data, None), 2), Check)],
       caller := AtRedisSet(SaveCreds("b"), AuthPatch(Some("b"), None, None), 2))
  }

  lemma MissedSaveRuns(data: KeyTable, now: int, ttl: int)
    ensures LegalRun(Settled("a", Some(data), 2, now, ttl), MissedSave())
    ensures Run(Settled("a", Some(data), 2, now, ttl), MissedSave()) == Overtaking(data, now, ttl)
  {
    hide MergeKeys;
    var s1 := Next(Settled("a", Some(data), 2, now, ttl), Lose(true, true, true));
    var s2 := Next(s1, Begin(SaveCreds("b")));
    var s3 := Next(s2, ReadCreds);
    OneMore(s3, ReadMongo({}), []);
    OneMore(s2, ReadCreds, [ReadMongo({})]);
    OneMore(s1, Begin(SaveCreds("b")), [ReadCreds, ReadMongo({})]);
  }

  lemma OvertakingSaveRuns(data: KeyTable, now: int, ttl: int)
    ensures LegalRun(Overtaking(data, now, ttl), OvertakingSave(now, ttl))
    ensures var s := Run(Overtaking(data, now, ttl), OvertakingSave(now, ttl));
            && s.caller == AtKeys(Look, Some(3), "b") && s.redis.keys == None && s.warms == []
            && s.plain == Some(AuthSnapshot("b", data, None))
  {
    hide MergeKeys;
    var s1 := Next(Overtaking(data, now, ttl), WriteRedis);
    var s2 := Next(s1, WriteMongo(now, ttl));
    var s3 := Next(s2, WarmStep(0));
    var s4 := Next(s3, Begin(Look));
    OneMore(s4, ReadCreds, []);
    OneMore(s3, Begin(Look), [ReadCreds]);
    OneMore(s2, WarmStep(0), [Begin(Look), ReadCreds]);
    OneMore(s1, WriteMongo(now, ttl), [WarmStep(0), Begin(Look), ReadCreds]);
  }

  /** An ordinary schedule goes wrong: Redis loses an idle session, the next saveCreds misses, writes before its
      own get's warmer does, and the warmer ends without a word. The get after that answers with no keys. */
  lemma OvertakenWarmerHidesTheKeys(data: KeyTable, now: int, ttl: int)
    requires NoNulls(data) && data != map[]
    ensures var steps := FirstSave(now, ttl) + KeysRead(data) + KeysWrite(now, ttl)
                         + MissedSave() + OvertakingSave(now, ttl);
            && LegalRun(START, steps)
            && var s := Run(START, steps);
            && s.caller.AtKeys? && s.warms == [] && s.plain == Some(AuthSnapshot("b", data, None))
            && HotAnswer(s) == Some(Versioned(AuthSnapshot("b", map[], None), 3))
  {
    FirstSaveSettles(now, ttl);
    KeysReadGoesOn(data, now, ttl);
    KeysWriteSettles(data, now, ttl);
    MissedSaveRuns(data, now, ttl);
    OvertakingSaveRuns(data, now, ttl);
    hide FirstSave;
    hide KeysRead;
    hide KeysWrite;
    hide MissedSave;
    hide OvertakingSave;
    hide Settled;
    hide Setting;
    hide Overtaking;
    var steps := FirstSave(now, ttl);
    RunConcat(START, steps, KeysRead(data));
    steps := steps + KeysRead(data);
    RunConcat(START, steps, KeysWrite(now, ttl));
    steps := steps + KeysWrite(now, ttl);
    RunConcat(START, steps, MissedSave());
    steps := steps + MissedSave();
    RunConcat(START, steps, OvertakingSave(now, ttl));
  }

  /** keys.set of a settled session, up to its Redis write, and on to the next get. */
  function Deletion(gone: KeyTable): seq<Step> {
    [Begin(SetKeys(gone)), ReadCreds, ReadKeys, ReadForMerge]
  }

  function DeletionEnds(now: int, ttl: int): seq<Step> {
    [WriteRedis, WriteMongo(now, ttl), Begin(Look), ReadCreds]
  }

  function Deleting(data: KeyTable, gone: KeyTable, now: int, ttl: int): State {
    Settled("a", Some(data), 2, now, ttl).(
      caller := AtPipeline(SetKeys(gone), AuthPatch(None, Some(MergeKeys(data, gone)), None), 2,
                           Some(StoredKeys(data, None))))
  }

  lemma DeletionRuns(data: KeyTable, gone: KeyTable, now: int, ttl: int)
    ensures LegalRun(Settled("a", Some(data), 2, now, ttl), Deletion(gone))
    ensures Run(Settled("a", Some(data), 2, now, ttl), Deletion(gone)) == Deleting(data, gone, now, ttl)
  {
    hide MergeKeys;
    var s1 := Next(Settled("a", Some(data), 2, now, ttl), Begin(SetKeys(gone)));
    var s2 := Next(s1, ReadCreds);
    var s3 := Next(s2, ReadKeys);
    OneMore(s3, ReadForMerge, []);
    OneMore(s2, ReadKeys, [ReadForMerge]);
    OneMore(s1, ReadCreds, [ReadKeys, ReadForMerge]);
  }

  lemma DeletionEndsRuns(data: KeyTable, gone: KeyTable, now: int, ttl: int)
    ensures LegalRun(Deleting(data, gone, now, ttl), DeletionEnds(now, ttl))
    ensures var s := Run(Deleting(data, gone, now, ttl), DeletionEnds(now, ttl));
            && s.caller.AtKeys? && s.plain == Some(AuthSnapshot("a", MergeKeys(data, gone), None))
            && HotAnswer(s) == Some(Versioned(AuthSnapshot("a", MergeKeys(data, MergeKeys(data, gone)), None), 3))
  {
    hide MergeKeys;
    var s1 := Next(Deleting(data, gone, now, ttl), WriteRedis);
    var s2 := Next(s1, WriteMongo(now, ttl));
    var s3 := Next(s2, Begin(Look));
    OneMore(s3, ReadCreds, []);
    OneMore(s2, Begin(Look), [ReadCreds]);
    OneMore(s1, WriteMongo(now, ttl), [Begin(Look), ReadCreds]);
  }

  /** Deleting through the hook, with nothing lost and no warmer about: the next get answers with the plain map
      if and only if the data deletes nothing the session has. */
  lemma HotDeletionsComeBack(data: KeyTable, gone: KeyTable, now: int, ttl: int)
    requires NoNulls(data)
    ensures var steps := Deletion(gone) + DeletionEnds(now, ttl);
            && LegalRun(Settled("a", Some(data), 2, now, ttl), steps)
            && var s := Run(Settled("a", Some(data), 2, now, ttl), steps);
            && s.caller.AtKeys? && s.plain.Some? && HotAnswer(s).Some?
            && (HotAnswer(s).value.data == s.plain.value <==> !DeletesSomething(data, gone))
  {
    DeletionRuns(data, gone, now, ttl);
    DeletionEndsRuns(data, gone, now, ttl);
    RunConcat(Settled("a", Some(data), 2, now, ttl), Deletion(gone), DeletionEnds(now, ttl));
    LayersAgreeExactlyWithoutDeletions(data, gone);
    hide MergeKeys;
    hide DeletesSomething;
    hide Deletion;
    hide DeletionEnds;
    hide Settled;
    hide Deleting;
  }

  /** Keys written before any creds make a document no get can read, whatever is in it. */
  lemma KeysFirstSessionIsUnreadable(keys: KeyTable, expected: Option<int>, now: int, ttl: int)
    ensures var u := UpdatesOf(AuthPatch(None, Some(keys), None), expected, None, now, ttl);
            ReadDocument(Some(Upserted(None, u))) == Err(StorageFailure)
  {
  }

  /** Routine saves alone bring creds without keys about: a creds-only set renews the creds and not the keys, so
      while the creds live every Redis get shows the keys exactly before the keys' own deadline. */
  lemma SavedCredsOutliveTheKeys(session: Session, creds: string, expected: Option<int>, now: int, ttl: int, at: int)
    requires session.keys.Some? && at < now + ttl
    ensures var saved := SetSession(session, AuthPatch(Some(creds), None, None), expected, now, ttl);
            var kept := session.keys.value;
            var shown := if at < kept.expiresAt then kept.value else StoredKeys(map[], None);
            ViewGet(ViewAt(saved, at))
              == Some(Versioned(AuthSnapshot(creds, shown.keys, shown.appState),
                                ReportedVersion(Some(NextVersion(expected)))))
  {
  }
}
