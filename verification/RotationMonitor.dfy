/** Rotation frequency per session: a list pruned to the window, and what it says about all of history. */
module RotationMonitor {
  import opened AuthTypes
  import opened Totals

  datatype Config = Config(thresholdPerMinute: real, windowMs: int)

  datatype RotationData = RotationData(timestamps: seq<int>, totalRotations: nat, firstSeen: int, anomalyDetected: bool)

  datatype Level = NORMAL | WARNING | ANOMALY

  datatype RotationStatus = RotationStatus(
    status: Level, rate: nat, threshold: real, sessionId: SessionId, timestamp: int)

  datatype RotationStats = RotationStats(
    totalRotations: nat, recentRotations: nat, firstSeen: int, lastSeen: int, currentRate: nat, anomalyDetected: bool)

  type Records = map<SessionId, RotationData>

  function Track(records: Records, id: SessionId): Option<RotationData> {
    if id in records then Some(records[id]) else None
  }

  /** The events younger than the window, in order. */
  function Recent(timestamps: seq<int>, now: int, windowMs: int): seq<int> {
    if timestamps == [] then []
    else
      var last := timestamps[|timestamps| - 1];
      Recent(timestamps[..|timestamps| - 1], now, windowMs) + if now - last < windowMs then [last] else []
  }

  function LevelOf(c: Config, rate: nat): Level {
    if rate as real > c.thresholdPerMinute then ANOMALY
    else if rate as real > c.thresholdPerMinute * 0.7 then WARNING
    else NORMAL
  }

  /** The record a rotation at `now` leaves. */
  function Recorded(c: Config, data: Option<RotationData>, now: int): RotationData {
    var d := GetOr(data, RotationData([], 0, now, false));
    var recent := Recent(d.timestamps, now, c.windowMs) + [now];
    RotationData(recent, d.totalRotations + 1, d.firstSeen, d.anomalyDetected || LevelOf(c, |recent|) == ANOMALY)
  }

  function StatusOf(c: Config, id: SessionId, timestamps: seq<int>, now: int): RotationStatus {
    var rate := |Recent(timestamps, now, c.windowMs)|;
    RotationStatus(LevelOf(c, rate), rate, c.thresholdPerMinute, id, now)
  }

  function Anomalous(records: Records): set<SessionId> {
    set id | id in records && records[id].anomalyDetected
  }

  function Rotations(records: Records): map<SessionId, nat> {
    map id | id in records :: records[id].totalRotations
  }

  class RotationMonitor {
    var rotationData: Records
    const config: Config

    constructor (config: Config)
      ensures this.config == config && rotationData == map[]
    {
      this.config := config;
      rotationData := map[];
    }

    method RecordRotation(id: SessionId, now: int) returns (result: RotationStatus)
      modifies this`rotationData
      ensures rotationData == old(rotationData)[id := Recorded(config, Track(old(rotationData), id), now)]
      ensures result.rate == |rotationData[id].timestamps| && result.status == LevelOf(config, result.rate)
      ensures result.threshold == config.thresholdPerMinute && result.sessionId == id && result.timestamp == now
    {
      var data := RotationData([], 0, now, false);
      if id in rotationData { data := rotationData[id]; }
      var recentTimestamps := Recent(data.timestamps, now, config.windowMs);
      recentTimestamps := recentTimestamps + [now];
      data := data.(timestamps := recentTimestamps, totalRotations := data.totalRotations + 1);
      var rate := |recentTimestamps|;
      var status := NORMAL;
      if rate as real > config.thresholdPerMinute {
        status := ANOMALY;
        data := data.(anomalyDetected := true);
      } else if rate as real > config.thresholdPerMinute * 0.7 {
        status := WARNING;
      }
      rotationData := rotationData[id := data];
      result := RotationStatus(status, rate, config.thresholdPerMinute, id, now);
    }

    method GetStatus(id: SessionId, now: int) returns (r: Option<RotationStatus>)
      ensures r == if id in rotationData then Some(StatusOf(config, id, rotationData[id].timestamps, now)) else None
    {
      if id !in rotationData { return None; }
      var rate := |Recent(rotationData[id].timestamps, now, config.windowMs)|;
      var status := NORMAL;
      if rate as real > config.thresholdPerMinute {
        status := ANOMALY;
      } else if rate as real > config.thresholdPerMinute * 0.7 {
        status := WARNING;
      }
      r := Some(RotationStatus(status, rate, config.thresholdPerMinute, id, now));
    }

    method GetStats(id: SessionId, now: int) returns (r: Option<RotationStats>)
      ensures r.Some? == (id in rotationData)
      ensures r.Some? ==>
        var d := rotationData[id];
        && r.value.totalRotations == d.totalRotations && r.value.anomalyDetected == d.anomalyDetected
        && r.value.firstSeen == d.firstSeen
        && r.value.lastSeen == (if d.timestamps == [] then d.firstSeen else d.timestamps[|d.timestamps| - 1])
        && r.value.currentRate == r.value.recentRotations == |Recent(d.timestamps, now, config.windowMs)|
    {
      if id !in rotationData { return None; }
      var data := rotationData[id];
      var recent := Recent(data.timestamps, now, config.windowMs);
      var lastSeen := if data.timestamps != [] then data.timestamps[|data.timestamps| - 1] else data.firstSeen;
      r := Some(RotationStats(data.totalRotations, |recent|, data.firstSeen, lastSeen, |recent|, data.anomalyDetected));
    }

    method HasAnomaly(id: SessionId, now: int) returns (r: bool)
      ensures r <==>
        && id in rotationData
        && |Recent(rotationData[id].timestamps, now, config.windowMs)| as real > config.thresholdPerMinute
    {
      var status := GetStatus(id, now);
      r := status.Some? && status.value.status == ANOMALY;
    }

    method Reset(id: SessionId)
      modifies this`rotationData
      ensures rotationData == old(rotationData) - {id}
    {
      rotationData := rotationData - {id};
    }

    /** The sessions are visited in any order. */
    method GetAggregateStats() returns (trackedSessions: nat, sessionsWithAnomalies: nat, totalRotationsRecorded: nat)
      ensures trackedSessions == |rotationData|
      ensures sessionsWithAnomalies == |Anomalous(rotationData)|
      ensures totalRotationsRecorded == Total(Rotations(rotationData))
    {
      trackedSessions, sessionsWithAnomalies, totalRotationsRecorded := |rotationData|, 0, 0;
      var rest := rotationData;
      while rest != map[]
        invariant sessionsWithAnomalies + |Anomalous(rest)| == |Anomalous(rotationData)|
        invariant totalRotationsRecorded + Total(Rotations(rest)) == Total(Rotations(rotationData))
        decreases |rest|
      {
        var id :| id in rest;
        TakeOut(rest, id);
        totalRotationsRecorded := totalRotationsRecorded + rest[id].totalRotations;
        if rest[id].anomalyDetected {
          sessionsWithAnomalies := sessionsWithAnomalies + 1;
        }
        rest := rest - {id};
      }
    }
  }

  lemma TakeOut(records: Records, id: SessionId)
    requires id in records
    ensures Total(Rotations(records)) == records[id].totalRotations + Total(Rotations(records - {id}))
    ensures |Anomalous(records)| == |Anomalous(records - {id})| + if records[id].anomalyDetected then 1 else 0
    ensures |records| == |records - {id}| + 1
  {
    TotalTakesAny(Rotations(records), id);
    assert Rotations(records) - {id} == Rotations(records - {id});
    var rest := Anomalous(records - {id});
    assert Anomalous(records) == if records[id].anomalyDetected then rest + {id} else rest;
    assert (records - {id}).Keys == records.Keys - {id};
  }

  // ----- the pruned list refines full history -----

  datatype Event = Rotation(id: SessionId, at: int) | Forget(id: SessionId, at: int)

  function After(c: Config, records: Records, e: Event): Records {
    match e
    case Rotation(id, at) => records[id := Recorded(c, Track(records, id), at)]
    case Forget(id, _) => records - {id}
  }

  function Run(c: Config, records: Records, events: seq<Event>): Records
    decreases |events|
  {
    if events == [] then records
    else After(c, Run(c, records, events[..|events| - 1]), events[|events| - 1])
  }

  /** Every rotation of a session since it was last forgotten, oldest first. */
  function History(events: seq<Event>, id: SessionId): seq<int>
    decreases |events|
  {
    if events == [] then []
    else
      var before := History(events[..|events| - 1], id);
      match events[|events| - 1]
      case Rotation(i, at) => if i == id then before + [at] else before
      case Forget(i, _) => if i == id then [] else before
  }

  predicate Monotone(events: seq<Event>, now: int) {
    && (forall i, j :: 0 <= i < j < |events| ==> events[i].at <= events[j].at)
    && (forall i :: 0 <= i < |events| ==> events[i].at <= now)
  }

  /** Some rotation found more events in its window, itself included, than the threshold allows. */
  predicate EverExceeded(c: Config, history: seq<int>) {
    exists k :: 0 <= k < |history| && Exceeded(c, history, k)
  }

  predicate Exceeded(c: Config, history: seq<int>, k: nat)
    requires k < |history|
  {
    |Recent(history[..k + 1], history[k], c.windowMs)| as real > c.thresholdPerMinute
  }

  /** A record that answers every later question as the full history does. */
  ghost predicate Refines(c: Config, data: Option<RotationData>, history: seq<int>, now: int) {
    && (data.None? <==> history == [])
    && (data.Some? ==>
          var d := data.value;
          && (forall later :: now <= later ==>
                Recent(d.timestamps, later, c.windowMs) == Recent(history, later, c.windowMs))
          && d.totalRotations == |history|
          && d.firstSeen == history[0]
          && d.timestamps != [] && d.timestamps[|d.timestamps| - 1] == history[|history| - 1]
          && (d.anomalyDetected <==> EverExceeded(c, history)))
  }

  /** What is outside the window now is outside it later. */
  lemma {:induction false} PruningIsInvisible(timestamps: seq<int>, now: int, later: int, windowMs: int)
    requires now <= later
    ensures Recent(Recent(timestamps, now, windowMs), later, windowMs) == Recent(timestamps, later, windowMs)
  {
    if timestamps != [] {
      var last := timestamps[|timestamps| - 1];
      var recent := Recent(timestamps[..|timestamps| - 1], now, windowMs);
      PruningIsInvisible(timestamps[..|timestamps| - 1], now, later, windowMs);
      if now - last < windowMs {
        assert (recent + [last])[..|recent|] == recent;
      } else {
        assert recent + [] == recent;
      }
    }
  }

  lemma RecentOfPush(timestamps: seq<int>, at: int, now: int, windowMs: int)
    ensures Recent(timestamps + [at], now, windowMs)
         == Recent(timestamps, now, windowMs) + if now - at < windowMs then [at] else []
  {
    assert (timestamps + [at])[..|timestamps|] == timestamps;
  }

  lemma ExceededByPush(c: Config, history: seq<int>, at: int)
    ensures EverExceeded(c, history + [at])
        <==> EverExceeded(c, history) || |Recent(history + [at], at, c.windowMs)| as real > c.thresholdPerMinute
  {
    hide Recent;
    var longer := history + [at];
    assert longer[..|history| + 1] == longer;
    forall k | 0 <= k < |history| ensures Exceeded(c, longer, k) == Exceeded(c, history, k) {
      assert longer[..k + 1] == history[..k + 1];
    }
    if EverExceeded(c, history) {
      var k :| 0 <= k < |history| && Exceeded(c, history, k);
      assert Exceeded(c, longer, k);
    }
    assert Exceeded(c, longer, |history|) == (|Recent(longer, at, c.windowMs)| as real > c.thresholdPerMinute);
  }

  /** Recording one more rotation keeps the refinement. */
  lemma RecordingRefines(c: Config, data: Option<RotationData>, history: seq<int>, now: int, at: int)
    requires Refines(c, data, history, now) && now <= at && c.windowMs > 0
    ensures Refines(c, Some(Recorded(c, data, at)), history + [at], at)
  {
    var d := GetOr(data, RotationData([], 0, at, false));
    var pruned := Recent(d.timestamps, at, c.windowMs);
    assert pruned == Recent(history, at, c.windowMs);
    forall later | at <= later
      ensures Recent(pruned + [at], later, c.windowMs) == Recent(history + [at], later, c.windowMs)
    {
      PruningIsInvisible(history, at, later, c.windowMs);
      RecentOfPush(pruned, at, later, c.windowMs);
      RecentOfPush(history, at, later, c.windowMs);
    }
    RecentOfPush(history, at, at, c.windowMs);
    ExceededByPush(c, history, at);
    assert !EverExceeded(c, []);
  }

  /** In every run with a monotone clock and a positive window, every session's pruned record refines its
      full history. */
  lemma {:induction false} EveryRecordRefinesHistory(c: Config, events: seq<Event>, now: int, id: SessionId)
    requires Monotone(events, now) && c.windowMs > 0
    ensures Refines(c, Track(Run(c, map[], events), id), History(events, id), now)
    decreases |events|
  {
    if events != [] {
      var before, e := events[..|events| - 1], events[|events| - 1];
      EveryRecordRefinesHistory(c, before, e.at, id);
      if e == Rotation(id, e.at) {
        RecordingRefines(c, Track(Run(c, map[], before), id), History(before, id), e.at, e.at);
      }
    }
  }

  /** The events younger than the window, by position. */
  function Younger(history: seq<int>, now: int, windowMs: int): set<int> {
    set i | 0 <= i < |history| && now - history[i] < windowMs
  }

  lemma {:induction false} RecentCountsTheYounger(history: seq<int>, now: int, windowMs: int)
    ensures |Recent(history, now, windowMs)| == |Younger(history, now, windowMs)|
    decreases |history|
  {
    if history != [] {
      var n := |history| - 1;
      RecentCountsTheYounger(history[..n], now, windowMs);
      var before := Younger(history[..n], now, windowMs);
      assert Younger(history, now, windowMs) == before + if now - history[n] < windowMs then {n} else {};
    }
  }

  /** How a rate is judged: an anomaly above the threshold, a warning above seven tenths of it. */
  predicate JudgedBy(threshold: real, rate: nat, status: Level) {
    && (status == ANOMALY <==> rate as real > threshold)
    && (status == WARNING <==> threshold * 0.7 < rate as real <= threshold)
  }

  /** The rate and status reported are those of counting all recorded events younger than the window. */
  lemma StatusCountsFullHistory(c: Config, events: seq<Event>, now: int, id: SessionId)
    requires Monotone(events, now) && c.windowMs > 0
    ensures var records := Run(c, map[], events);
            id in records ==>
              var status := StatusOf(c, id, records[id].timestamps, now);
              && status.rate == |Younger(History(events, id), now, c.windowMs)|
              && JudgedBy(c.thresholdPerMinute, status.rate, status.status)
  {
    EveryRecordRefinesHistory(c, events, now, id);
    RecentCountsTheYounger(History(events, id), now, c.windowMs);
  }

  /** recordRotation on a monitor to which these events happened: it counts itself and every event younger than the
      window. */
  method RecordAfterRun(monitor: RotationMonitor, ghost events: seq<Event>, id: SessionId, now: int)
    returns (result: RotationStatus)
    requires monitor.rotationData == Run(monitor.config, map[], events) && Monotone(events, now)
    requires monitor.config.windowMs > 0
    modifies monitor`rotationData
    ensures monitor.rotationData == Run(monitor.config, map[], events + [Rotation(id, now)])
    ensures result.rate == |Younger(History(events, id) + [now], now, monitor.config.windowMs)|
    ensures JudgedBy(monitor.config.thresholdPerMinute, result.rate, result.status)
  {
    EveryRecordRefinesHistory(monitor.config, events, now, id);
    RecentCountsTheYounger(History(events, id) + [now], now, monitor.config.windowMs);
    RecentOfPush(History(events, id), now, now, monitor.config.windowMs);
    assert (events + [Rotation(id, now)])[..|events|] == events;
    hide History;
    hide EverExceeded;
    result := monitor.RecordRotation(id, now);
  }

  /** The rate a recording reports is the number of events in its window, its own included, exactly when
      the window is positive. */
  lemma RateNeedsAPositiveWindow(c: Config, d: RotationData, at: int)
    ensures |Recorded(c, Some(d), at).timestamps| == |Recent(d.timestamps + [at], at, c.windowMs)| <==> c.windowMs > 0
  {
    RecentOfPush(d.timestamps, at, at, c.windowMs);
  }

  /** The aggregates are sums over full histories: every rotation is counted once, and a session is
      anomalous exactly when some rotation of it exceeded the threshold. */
  lemma AggregatesAreSumsOverHistory(c: Config, events: seq<Event>, now: int)
    requires Monotone(events, now) && c.windowMs > 0
    ensures var records := Run(c, map[], events);
            && Rotations(records) == (map id | id in records :: |History(events, id)|)
            && Anomalous(records) == (set id | id in records && EverExceeded(c, History(events, id)))
            && (forall id: SessionId :: id in records <==> History(events, id) != [])
  {
    forall id: SessionId ensures Refines(c, Track(Run(c, map[], events), id), History(events, id), now) {
      EveryRecordRefinesHistory(c, events, now, id);
    }
  }
}
