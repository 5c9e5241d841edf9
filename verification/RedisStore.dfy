/** The Redis hot copy of a session: three keys (creds, keys, meta), each with its own time to live. */
module RedisStore {
  import opened AuthTypes

  /** A Redis key's value and the instant it expires. */
  datatype Cell<+T> = Cell(value: T, expiresAt: int)

  datatype StoredKeys = StoredKeys(keys: KeyTable, appState: Option<string>)

  /** The three keys of one session; `meta` holds the global version. */
  datatype Session = Session(creds: Option<Cell<string>>, keys: Option<Cell<StoredKeys>>, meta: Option<Cell<int>>)

  /** What a client can still read of a session at some instant. */
  datatype View = View(creds: Option<string>, keys: Option<StoredKeys>, meta: Option<int>)

  const EMPTY := Session(None, None, None)
  const NOTHING := View(None, None, None)

  function Alive<T>(c: Option<Cell<T>>, now: int): Option<T> {
    if c.Some? && now < c.value.expiresAt then Some(c.value.value) else None
  }

  function ViewAt(s: Session, now: int): View {
    View(Alive(s.creds, now), Alive(s.keys, now), Alive(s.meta, now))
  }

  /** `meta.version || 1`, and 1 without meta. */
  function ReportedVersion(meta: Option<int>): int {
    if meta.Some? && meta.value != 0 then meta.value else 1
  }

  /** The snapshot read from the fields once the version is known: creds are required, keys are not. */
  function ReadFields(v: View, version: int): Option<Versioned> {
    if v.creds.None? then None
    else
      var k := GetOr(v.keys, StoredKeys(map[], None));
      Some(Versioned(AuthSnapshot(v.creds.value, k.keys, k.appState), version))
  }

  function ViewGet(v: View): Option<Versioned> {
    ReadFields(v, ReportedVersion(v.meta))
  }

  predicate TouchesKeys(patch: AuthPatch) {
    patch.keys.Some? || patch.appState.Some?
  }

  /** The keys record a patch writes over the one it read. */
  function MergedKeys(current: Option<StoredKeys>, patch: AuthPatch): StoredKeys {
    var base := GetOr(current, StoredKeys(map[], None));
    StoredKeys(MergeKeys(base.keys, GetOr(patch.keys, map[])), OrElse(patch.appState, base.appState))
  }

  /** The pipeline of a set whose earlier read of the keys field returned `current`. */
  function WriteView(v: View, current: Option<StoredKeys>, patch: AuthPatch, expected: Option<int>): View {
    View(OrElse(patch.creds, v.creds),
         if TouchesKeys(patch) then Some(MergedKeys(current, patch)) else v.keys,
         Some(NextVersion(expected)))
  }

  function ViewSet(v: View, patch: AuthPatch, expected: Option<int>): View {
    WriteView(v, v.keys, patch, expected)
  }

  function SetSession(s: Session, patch: AuthPatch, expected: Option<int>, now: int, ttl: int): Session {
    Session(if patch.creds.Some? then Some(Cell(patch.creds.value, now + ttl)) else s.creds,
            if TouchesKeys(patch) then Some(Cell(MergedKeys(Alive(s.keys, now), patch), now + ttl)) else s.keys,
            Some(Cell(NextVersion(expected), now + ttl)))
  }

  /** EXPIRE: a live key gets a new deadline, a dead one stays dead. */
  function Renew<T>(c: Option<Cell<T>>, now: int, ttl: int): Option<Cell<T>> {
    if Alive(c, now).Some? then Some(c.value.(expiresAt := now + ttl)) else c
  }

  /** touch sends three EXPIRE commands; each one reaches the server at its own instant. */
  function TouchSession(s: Session, credsAt: int, keysAt: int, metaAt: int, ttl: int): Session {
    Session(Renew(s.creds, credsAt, ttl), Renew(s.keys, keysAt, ttl), Renew(s.meta, metaAt, ttl))
  }

  /** A view that lost some of its fields and changed none. */
  predicate LosesOnly(before: View, after: View) {
    && (after.creds == before.creds || after.creds == None)
    && (after.keys == before.keys || after.keys == None)
    && (after.meta == before.meta || after.meta == None)
  }

  /** The clock only takes fields away, so reasoning about arbitrary losses covers expiry; and with a
      positive time to live a set acts on the view as `ViewSet` says. */
  lemma TimedSetIsViewSet(s: Session, patch: AuthPatch, expected: Option<int>, now: int, later: int, ttl: int)
    requires ttl > 0 && now <= later
    ensures ViewAt(SetSession(s, patch, expected, now, ttl), now) == ViewSet(ViewAt(s, now), patch, expected)
    ensures LosesOnly(ViewAt(s, now), ViewAt(s, later))
  {
  }

  /** What a get finds after a set, as long as what the set wrote lasts: creds, app state and each key as the patch
      says, else as they were if they are still there; and the new version, where 0 reads as 1. */
  lemma SetReadsBack(s: Session, patch: AuthPatch, expected: Option<int>, now: int, at: int, ttl: int)
    requires now <= at < now + ttl
    ensures var before, got := ViewAt(s, now), ViewGet(ViewAt(SetSession(s, patch, expected, now, ttl), at));
            var kept := ViewAt(s, at);
            var touched := patch.keys.Some? || patch.appState.Some?;
            && (got.Some? <==> patch.creds.Some? || kept.creds.Some?)
            && (got.Some? ==>
                  && got.value.data.creds == (if patch.creds.Some? then patch.creds.value else kept.creds.value)
                  && got.value.version == (if expected == Some(-1) then 1 else GetOr(expected, 0) + 1)
                  && (!touched ==>
                        && got.value.data.keys == (if kept.keys.Some? then kept.keys.value.keys else map[])
                        && got.value.data.appState == (if kept.keys.Some? then kept.keys.value.appState else None))
                  && (touched ==>
                        && got.value.data.appState == (if patch.appState.Some? then patch.appState
                                                       else if before.keys.Some? then before.keys.value.appState
                                                       else None)
                        && forall t, id ::
                             Lookup(got.value.data.keys, t, id) ==
                               match Lookup(GetOr(patch.keys, map[]), t, id)
                               case Some(v) => if v == Null then None else Some(v)
                               case None => if before.keys.Some? then Lookup(before.keys.value.keys, t, id) else None))
  {
    var current := if ViewAt(s, now).keys.Some? then ViewAt(s, now).keys.value.keys else map[];
    var named: KeyTable := GetOr(patch.keys, map[]);
    forall t, id
      ensures Lookup(MergeKeys(current, named), t, id) ==
                match Lookup(named, t, id)
                case Some(v) => if v == Null then None else Some(v)
                case None => Lookup(current, t, id)
    {
      MergeLooksUp(current, named, t, id);
    }
    hide MergeKeys;
    hide Lookup;
  }

  class RedisAuthStore {
    var sessions: map<SessionId, Session>
    var connected: bool
    const defaultTtl: int

    constructor (defaultTtl: int)
      ensures this.defaultTtl == defaultTtl && sessions == map[] && !connected
    {
      this.defaultTtl := defaultTtl;
      sessions := map[];
      connected := false;
    }

    function SessionOf(id: SessionId): Session
      reads this
    {
      if id in sessions then sessions[id] else EMPTY
    }

    method Get(id: SessionId, now: int) returns (r: Result<Option<Versioned>>)
      ensures r == if connected then Ok(ViewGet(ViewAt(SessionOf(id), now))) else Err(NotConnected)
    {
      if !connected { return Err(NotConnected); }
      var version := 1;
      var meta := Alive(SessionOf(id).meta, now);
      if meta.Some? {
        version := if meta.value == 0 then 1 else meta.value;
      }
      var creds := Alive(SessionOf(id).creds, now);
      var keys := Alive(SessionOf(id).keys, now);
      if creds.None? { return Ok(None); }
      var keysData := if keys.Some? then keys.value else StoredKeys(map[], None);
      r := Ok(Some(Versioned(AuthSnapshot(creds.value, keysData.keys, keysData.appState), version)));
    }

    /** `pipelineOk` is false when the pipeline could not be executed; nothing is written then. */
    method Set(id: SessionId, patch: AuthPatch, expected: Option<int>, now: int, pipelineOk: bool)
      returns (r: Result<int>)
      modifies this`sessions
      ensures r == if !connected then Err(NotConnected)
                   else if !pipelineOk then Err(StorageFailure) else Ok(NextVersion(expected))
      ensures sessions == if r.Err? then old(sessions)
                          else old(sessions)[id := SetSession(old(SessionOf(id)), patch, expected, now, defaultTtl)]
    {
      if !connected { return Err(NotConnected); }
      var newVersion := (if expected.Some? then expected.value else 0) + 1;
      var session := SessionOf(id);
      var deadline := now + defaultTtl;
      if patch.creds.Some? {
        session := session.(creds := Some(Cell(patch.creds.value, deadline)));
      }
      if patch.keys.Some? || patch.appState.Some? {
        var current := Alive(session.keys, now);
        var merged := if current.Some? then current.value.keys else map[];
        if patch.keys.Some? {
          merged := MergeIncrementally(merged, patch.keys.value);
        } else {
          MergeEmptyPatch(merged);
        }
        var appState := if patch.appState.Some? then patch.appState
                        else if current.Some? then current.value.appState else None;
        session := session.(keys := Some(Cell(StoredKeys(merged, appState), deadline)));
      }
      session := session.(meta := Some(Cell(newVersion, deadline)));
      if !pipelineOk { return Err(StorageFailure); }
      sessions := sessions[id := session];
      r := Ok(newVersion);
    }

    method Delete(id: SessionId) returns (r: Result<()>)
      modifies this`sessions
      ensures r == if connected then Ok(()) else Err(NotConnected)
      ensures sessions == if r.Ok? then old(sessions) - {id} else old(sessions)
    {
      if !connected { return Err(NotConnected); }
      sessions := sessions - {id};
      r := Ok(());
    }

    /** The three EXPIRE commands, with the instants the server runs them at. */
    method Touch(id: SessionId, ttlSeconds: Option<int>, credsAt: int, keysAt: int, metaAt: int) returns (r: Result<()>)
      modifies this`sessions
      ensures r == if connected then Ok(()) else Err(NotConnected)
      ensures sessions == if !connected || id !in old(sessions) then old(sessions)
                          else old(sessions)[id := TouchSession(old(sessions)[id], credsAt, keysAt, metaAt,
                                                                GetOr(ttlSeconds, defaultTtl))]
    {
      if !connected { return Err(NotConnected); }
      var ttl := if ttlSeconds.Some? then ttlSeconds.value else defaultTtl;
      if id in sessions {
        var s := sessions[id];
        s := s.(creds := Renew(s.creds, credsAt, ttl));
        s := s.(keys := Renew(s.keys, keysAt, ttl));
        s := s.(meta := Renew(s.meta, metaAt, ttl));
        sessions := sessions[id := s];
      }
      r := Ok(());
    }
  }

  lemma MergeEmptyPatch(t: KeyTable)
    ensures MergeKeys(t, map[]) == t
  {
  }
}

/** Runs of set, touch, delete and clock ticks on one session: the version key outlives the fields. */
module RedisMetaLifetime {
  import opened AuthTypes
  import opened RedisStore

  /** `latest` is the version of the last set since the last delete. */
  datatype State = State(session: Session, now: int, latest: int)

  datatype Step =
    | Tick(to: int)
    | Set(patch: AuthPatch, expected: Option<int>)
    | Touch(keysAt: int, metaAt: int, ttl: int) // the creds command runs now
    | Delete

  function Next(s: State, step: Step, defaultTtl: int): State {
    match step
    case Tick(to) => s.(now := to)
    case Set(patch, expected) =>
      State(SetSession(s.session, patch, expected, s.now, defaultTtl), s.now, NextVersion(expected))
    case Touch(keysAt, metaAt, ttl) =>
      State(TouchSession(s.session, s.now, keysAt, metaAt, ttl), metaAt, s.latest)
    case Delete => s.(session := EMPTY)
  }

  /** The clock does not run backwards, and a touch's commands run in order. */
  predicate Timed(s: State, step: Step) {
    match step
    case Tick(to) => s.now <= to
    case Touch(keysAt, metaAt, ttl) => s.now <= keysAt <= metaAt
    case _ => true
  }

  predicate TimedRun(s: State, steps: seq<Step>, defaultTtl: int)
    decreases |steps|
  {
    steps == [] || (Timed(s, steps[0]) && TimedRun(Next(s, steps[0], defaultTtl), steps[1..], defaultTtl))
  }

  function Run(s: State, steps: seq<Step>, defaultTtl: int): State
    decreases |steps|
  {
    if steps == [] then s else Run(Next(s, steps[0], defaultTtl), steps[1..], defaultTtl)
  }

  /** The promise: a readable field comes with a readable version, the one written last. */
  predicate MetaOutlivesFields(s: State) {
    var v := ViewAt(s.session, s.now);
    v.creds.Some? || v.keys.Some? ==> v.meta == Some(s.latest)
  }

  predicate NoTouch(steps: seq<Step>) {
    forall i :: 0 <= i < |steps| ==> !steps[i].Touch?
  }

  /** The promise holds now and through whatever sets, deletes and time follow. */
  ghost predicate PromiseLasts(s: State, defaultTtl: int) {
    forall steps :: TimedRun(s, steps, defaultTtl) && NoTouch(steps) ==> MetaOutlivesFields(Run(s, steps, defaultTtl))
  }

  /** A live field ends no later than the version, and no later than a set now would make the version end. */
  predicate FieldSafe<T>(field: Option<Cell<T>>, s: State, defaultTtl: int) {
    Alive(field, s.now).Some? ==>
      && s.session.meta.Some? && s.session.meta.value.value == s.latest
      && field.value.expiresAt <= s.session.meta.value.expiresAt
      && field.value.expiresAt <= s.now + defaultTtl
  }

  predicate Safe(s: State, defaultTtl: int) {
    FieldSafe(s.session.creds, s, defaultTtl) && FieldSafe(s.session.keys, s, defaultTtl)
  }

  lemma QuietStepKeepsSafe(s: State, step: Step, defaultTtl: int)
    requires Safe(s, defaultTtl) && Timed(s, step) && !step.Touch?
    ensures Safe(Next(s, step, defaultTtl), defaultTtl)
  {
  }

  lemma {:induction false} SafeLasts(s: State, steps: seq<Step>, defaultTtl: int)
    requires Safe(s, defaultTtl) && TimedRun(s, steps, defaultTtl) && NoTouch(steps)
    ensures MetaOutlivesFields(Run(s, steps, defaultTtl))
    decreases |steps|
  {
    if steps != [] {
      QuietStepKeepsSafe(s, steps[0], defaultTtl);
      SafeLasts(Next(s, steps[0], defaultTtl), steps[1..], defaultTtl);
    }
  }

  /** An unsafe field is caught without its version: now, when the version ends, or after a set of something
      else has brought that end forward. */
  lemma UnsafeFieldBreaks(s: State, set_: Step, defaultTtl: int)
    requires MetaOutlivesFields(s)
    requires || set_ == Set(AuthPatch(None, Some(map[]), None), None)
             || set_ == Set(AuthPatch(Some("creds"), None, None), None)
    requires set_.patch.creds.None? ==> !FieldSafe(s.session.creds, s, defaultTtl)
    requires set_.patch.creds.Some? ==> !FieldSafe(s.session.keys, s, defaultTtl)
    ensures !PromiseLasts(s, defaultTtl)
  {
    var deadline := if set_.patch.creds.None? then s.session.creds.value.expiresAt else s.session.keys.value.expiresAt;
    var meta := s.session.meta.value;
    if deadline > meta.expiresAt {
      RunOfOne(s, Tick(meta.expiresAt), defaultTtl);
    } else {
      var end := if defaultTtl > 0 then s.now + defaultTtl else s.now;
      var s1 := Next(s, set_, defaultTtl);
      RunOfTwo(s, set_, Tick(end), defaultTtl);
      assert !MetaOutlivesFields(Next(s1, Tick(end), defaultTtl));
    }
  }

  lemma RunOfOne(s: State, a: Step, defaultTtl: int)
    requires Timed(s, a) && !a.Touch?
    ensures TimedRun(s, [a], defaultTtl) && NoTouch([a]) && Run(s, [a], defaultTtl) == Next(s, a, defaultTtl)
  {
    assert [a][1..] == [];
  }

  lemma RunOfTwo(s: State, a: Step, b: Step, defaultTtl: int)
    requires Timed(s, a) && !a.Touch? && Timed(Next(s, a, defaultTtl), b) && !b.Touch?
    ensures TimedRun(s, [a, b], defaultTtl) && NoTouch([a, b])
    ensures Run(s, [a, b], defaultTtl) == Next(Next(s, a, defaultTtl), b, defaultTtl)
  {
    assert [a, b][1..] == [b];
    RunOfOne(Next(s, a, defaultTtl), b, defaultTtl);
  }

  /** Which states keep the promise, exactly: those in which every live field ends neither after the version
      nor later than the default time from now. */
  lemma PromiseLastsExactlyWhenSafe(s: State, defaultTtl: int)
    ensures PromiseLasts(s, defaultTtl) <==> Safe(s, defaultTtl)
  {
    if Safe(s, defaultTtl) {
      forall steps | TimedRun(s, steps, defaultTtl) && NoTouch(steps)
        ensures MetaOutlivesFields(Run(s, steps, defaultTtl))
      {
        SafeLasts(s, steps, defaultTtl);
      }
    } else if !MetaOutlivesFields(s) {
      assert TimedRun(s, [], defaultTtl) && NoTouch([]) && Run(s, [], defaultTtl) == s;
    } else if !FieldSafe(s.session.creds, s, defaultTtl) {
      UnsafeFieldBreaks(s, Set(AuthPatch(None, Some(map[]), None), None), defaultTtl);
    } else {
      UnsafeFieldBreaks(s, Set(AuthPatch(Some("creds"), None, None), None), defaultTtl);
    }
  }

  // ----- touches -----

  /** A field its command renews at `at`, for longer than the touch takes, needs the version to be there when
      the last command arrives, and no more time than a set would give it then. */
  predicate RenewsWell<T>(field: Option<Cell<T>>, at: int, s: State, metaAt: int, ttl: int, defaultTtl: int) {
    Alive(field, at).Some? && metaAt < at + ttl ==>
      Alive(s.session.meta, metaAt).Some? && at + ttl <= metaAt + defaultTtl
  }

  predicate TouchesWell(s: State, step: Step, defaultTtl: int) {
    step.Touch? ==>
      && RenewsWell(s.session.creds, s.now, s, step.metaAt, step.ttl, defaultTtl)
      && RenewsWell(s.session.keys, step.keysAt, s, step.metaAt, step.ttl, defaultTtl)
  }

  /** A touch, for however long, keeps the promise if and only if what it renews it renews well. */
  lemma TouchIsSafeExactlyWhenItRenewsWell(s: State, step: Step, defaultTtl: int)
    requires Safe(s, defaultTtl) && step.Touch? && Timed(s, step)
    ensures PromiseLasts(Next(s, step, defaultTtl), defaultTtl) <==> TouchesWell(s, step, defaultTtl)
  {
    PromiseLastsExactlyWhenSafe(Next(s, step, defaultTtl), defaultTtl);
  }

  predicate TouchesWellThroughout(s: State, steps: seq<Step>, defaultTtl: int)
    decreases |steps|
  {
    steps == [] ||
    (&& TouchesWell(s, steps[0], defaultTtl)
     && TouchesWellThroughout(Next(s, steps[0], defaultTtl), steps[1..], defaultTtl))
  }

  ghost predicate PromiseLastsThroughout(s: State, steps: seq<Step>, defaultTtl: int)
    decreases |steps|
  {
    PromiseLasts(s, defaultTtl) &&
    (steps == [] || PromiseLastsThroughout(Next(s, steps[0], defaultTtl), steps[1..], defaultTtl))
  }

  /** Over whole runs: the version outlives the fields at every point, and whatever sets and time may follow
      there, if and only if every touch of the run renews well. */
  lemma {:induction false} RunsKeepThePromiseExactlyWhenTouchesRenewWell(s: State, steps: seq<Step>, defaultTtl: int)
    requires PromiseLasts(s, defaultTtl) && TimedRun(s, steps, defaultTtl)
    ensures PromiseLastsThroughout(s, steps, defaultTtl) <==> TouchesWellThroughout(s, steps, defaultTtl)
    decreases |steps|
  {
    if steps != [] {
      var next := Next(s, steps[0], defaultTtl);
      PromiseLastsExactlyWhenSafe(s, defaultTtl);
      hide PromiseLasts;
      if steps[0].Touch? {
        TouchIsSafeExactlyWhenItRenewsWell(s, steps[0], defaultTtl);
      } else {
        QuietStepKeepsSafe(s, steps[0], defaultTtl);
        PromiseLastsExactlyWhenSafe(next, defaultTtl);
      }
      if PromiseLasts(next, defaultTtl) {
        RunsKeepThePromiseExactlyWhenTouchesRenewWell(next, steps[1..], defaultTtl);
      } else {
        assert !PromiseLastsThroughout(next, steps[1..], defaultTtl);
      }
    }
  }

  /** So in such runs a get never falls back to version 1 and reports the version of the latest set. */
  lemma {:induction false} EveryGetReportsTheLatestVersion(s: State, steps: seq<Step>, defaultTtl: int)
    requires Safe(s, defaultTtl) && TimedRun(s, steps, defaultTtl) && TouchesWellThroughout(s, steps, defaultTtl)
    ensures var end := Run(s, steps, defaultTtl);
            && MetaOutlivesFields(end)
            && var got := ViewGet(ViewAt(end.session, end.now));
            && (got.Some? ==> got.value.version == ReportedVersion(Some(end.latest)))
    decreases |steps|
  {
    if steps != [] {
      var next := Next(s, steps[0], defaultTtl);
      if !steps[0].Touch? {
        QuietStepKeepsSafe(s, steps[0], defaultTtl);
      }
      EveryGetReportsTheLatestVersion(next, steps[1..], defaultTtl);
    }
  }

  /** Meta about to expire: the fields are renewed, meta is gone when its turn comes, and the session's
      next get reports version 1 instead of 7. */
  lemma SlowTouchForgetsTheVersion()
    ensures var s := State(Session(Some(Cell("creds", 100)), None, Some(Cell(7, 100))), 99, 7);
            && Safe(s, 60)
            && var end := Next(s, Touch(100, 100, 60), 60);
            && ViewGet(ViewAt(s.session, 99)) == Some(Versioned(AuthSnapshot("creds", map[], None), 7))
            && ViewGet(ViewAt(end.session, 100)) == Some(Versioned(AuthSnapshot("creds", map[], None), 1))
  {
  }

  /** A touch beyond the default breaks the promise later: a keys-only set shortens meta's life again. */
  lemma LongTouchForgetsTheVersion()
    ensures var s := State(Session(Some(Cell("creds", 60)), None, Some(Cell(1, 60))), 0, 1);
            && Safe(s, 60)
            && var steps := [Touch(0, 0, 600), Set(AuthPatch(None, Some(map[]), None), Some(1)), Tick(100)];
            && !MetaOutlivesFields(Run(s, steps, 60))
  {
    var s := State(Session(Some(Cell("creds", 60)), None, Some(Cell(1, 60))), 0, 1);
    var touch, set_ := Touch(0, 0, 600), Set(AuthPatch(None, Some(map[]), None), Some(1));
    var s1 := Next(s, touch, 60);
    var s2 := Next(s1, set_, 60);
    var steps: seq<Step> := [touch, set_, Tick(100)];
    assert steps[1..] == [set_, Tick(100)] && steps[1..][1..] == [Tick(100)];
    assert Run(s2, [Tick(100)], 60) == Next(s2, Tick(100), 60);
  }
}

/** Runs of timed sets: which fields a get still shows, told from the log of sets alone. */
module RedisFieldLifetime {
  import opened AuthTypes
  import opened RedisStore
  import opened RedisMetaLifetime

  /** The time after the steps. */
  function TimeAfter(now: int, steps: seq<Step>): int {
    if steps == [] then now
    else
      var last := steps[|steps| - 1];
      if last.Tick? then last.to else TimeAfter(now, steps[..|steps| - 1])
  }

  /** When the session's last set that names a field happened, if it was not deleted since. */
  function LastSet(now: int, steps: seq<Step>, names: AuthPatch -> bool): Option<int> {
    if steps == [] then None
    else
      var before, last := steps[..|steps| - 1], steps[|steps| - 1];
      match last
      case Set(patch, _) => if names(patch) then Some(TimeAfter(now, before)) else LastSet(now, before, names)
      case Delete => None
      case _ => LastSet(now, before, names)
  }

  predicate NamesCreds(patch: AuthPatch) {
    patch.creds.Some?
  }

  /** The deadline of a field is that of its own last set, whatever else was set since. */
  predicate EndsWithItsSet<T>(field: Option<Cell<T>>, lastSet: Option<int>, ttl: int) {
    && (field.Some? <==> lastSet.Some?)
    && (field.Some? ==> field.value.expiresAt == lastSet.value + ttl)
  }

  lemma {:induction false} RunOfPrefix(s: State, steps: seq<Step>, last: Step, ttl: int)
    requires TimedRun(s, steps + [last], ttl)
    ensures TimedRun(s, steps, ttl)
    ensures Run(s, steps + [last], ttl) == Next(Run(s, steps, ttl), last, ttl)
    decreases |steps|
  {
    var all := steps + [last];
    if steps == [] {
      assert all[0] == last && all[1..] == [];
      assert Run(Next(s, last, ttl), [], ttl) == Next(s, last, ttl);
    } else {
      assert all[0] == steps[0] && all[1..] == steps[1..] + [last];
      RunOfPrefix(Next(s, steps[0], ttl), steps[1..], last, ttl);
    }
  }

  lemma {:induction false} FieldsEndWithTheirSets(now: int, steps: seq<Step>, ttl: int)
    requires TimedRun(State(EMPTY, now, 0), steps, ttl) && NoTouch(steps)
    ensures var end := Run(State(EMPTY, now, 0), steps, ttl);
            && end.now == TimeAfter(now, steps)
            && EndsWithItsSet(end.session.creds, LastSet(now, steps, NamesCreds), ttl)
            && EndsWithItsSet(end.session.keys, LastSet(now, steps, TouchesKeys), ttl)
    decreases |steps|
  {
    if steps != [] {
      var before, last := steps[..|steps| - 1], steps[|steps| - 1];
      assert steps == before + [last];
      RunOfPrefix(State(EMPTY, now, 0), before, last, ttl);
      FieldsEndWithTheirSets(now, before, ttl);
    }
  }

  /** A field last set at `lastSet` is still there. */
  predicate Lives(lastSet: Option<int>, ttl: int, now: int) {
    lastSet.Some? && now < lastSet.value + ttl
  }

  /** Over whole runs of timed sets, deletes and ticks: a get answers exactly until the deadline of the last set
      that named creds, and shows keys exactly until the deadline of the last set that touched keys. Saving
      creds does not keep the keys: between the two deadlines every get answers with none. */
  lemma GetsShowKeysExactlyUntilTheirOwnDeadline(now: int, steps: seq<Step>, ttl: int)
    requires TimedRun(State(EMPTY, now, 0), steps, ttl) && NoTouch(steps)
    ensures var end := Run(State(EMPTY, now, 0), steps, ttl);
            var v := ViewAt(end.session, end.now);
            var got := ViewGet(v);
            && (got.Some? <==> Lives(LastSet(now, steps, NamesCreds), ttl, TimeAfter(now, steps)))
            && (v.keys.Some? <==> Lives(LastSet(now, steps, TouchesKeys), ttl, TimeAfter(now, steps)))
            && (got.Some? ==>
                  && got.value.data.keys == (if v.keys.Some? then v.keys.value.keys else map[])
                  && got.value.data.appState == (if v.keys.Some? then v.keys.value.appState else None))
  {
    FieldsEndWithTheirSets(now, steps, ttl);
  }
}
