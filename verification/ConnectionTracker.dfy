/** Connection health by silence: the four-state machine of every tracked session. */
module ConnectionTracker {
  import opened AuthTypes
  import opened Totals

  datatype ConnectionState = HEALTHY | DEGRADED | DISCONNECTED | RECONNECTING

  datatype Recommendation = NONE | PING | RECONNECT

  datatype Config = Config(silenceThresholdMs: int, disconnectThresholdMs: int, autoCheck: bool)

  datatype ConnectionData = ConnectionData(
    lastActivity: int, state: ConnectionState, stateChangedAt: int, reconnectAttempts: nat, successfulReconnects: nat)

  datatype Health = Health(status: ConnectionState, silentMs: int, recommendation: Recommendation)

  const MAX_SAFE_INTEGER := 9007199254740991

  type Connections = map<SessionId, ConnectionData>

  // ----- what each call does to one session's record -----

  function OnActivity(d: Option<ConnectionData>, now: int): ConnectionData {
    match d
    case None => ConnectionData(now, HEALTHY, now, 0, 0)
    case Some(p) =>
      p.(lastActivity := now, state := HEALTHY,
         stateChangedAt := if p.state != HEALTHY then now else p.stateChangedAt,
         successfulReconnects := p.successfulReconnects + if p.state == RECONNECTING then 1 else 0)
  }

  function OnReconnectAttempt(d: Option<ConnectionData>, now: int): ConnectionData {
    match d
    case None => ConnectionData(0, RECONNECTING, now, 1, 0)
    case Some(p) =>
      p.(state := RECONNECTING, reconnectAttempts := p.reconnectAttempts + 1,
         stateChangedAt := if p.state != RECONNECTING then now else p.stateChangedAt)
  }

  function OnDisconnect(d: Option<ConnectionData>, now: int): ConnectionData {
    match d
    case None => ConnectionData(0, DISCONNECTED, now, 0, 0)
    case Some(p) =>
      p.(state := DISCONNECTED, stateChangedAt := if p.state != DISCONNECTED then now else p.stateChangedAt)
  }

  /** The status that silence alone suggests. */
  function BySilence(c: Config, silentMs: int): (ConnectionState, Recommendation) {
    if silentMs > c.disconnectThresholdMs then (DISCONNECTED, RECONNECT)
    else if silentMs > c.silenceThresholdMs then (DEGRADED, PING)
    else (HEALTHY, NONE)
  }

  /** A session that is neither disconnected nor reconnecting is judged by its silence. */
  predicate Judged(d: ConnectionData) {
    d.state == HEALTHY || d.state == DEGRADED
  }

  function HealthOf(c: Config, d: Option<ConnectionData>, now: int): Health {
    match d
    case None => Health(DISCONNECTED, MAX_SAFE_INTEGER, RECONNECT)
    case Some(p) =>
      var silentMs := now - p.lastActivity;
      if p.state == DISCONNECTED then Health(DISCONNECTED, silentMs, RECONNECT)
      else if p.state == RECONNECTING then Health(RECONNECTING, silentMs, NONE)
      else var (status, recommendation) := BySilence(c, silentMs); Health(status, silentMs, recommendation)
  }

  /** With autoCheck on, a check stores the status it computed. */
  function OnCheck(c: Config, d: Option<ConnectionData>, now: int): Option<ConnectionData> {
    if d.Some? && Judged(d.value) && c.autoCheck && HealthOf(c, d, now).status != d.value.state
    then Some(d.value.(state := HealthOf(c, d, now).status, stateChangedAt := now))
    else d
  }

  function Track(conns: Connections, id: SessionId): Option<ConnectionData> {
    if id in conns then Some(conns[id]) else None
  }

  function Store(conns: Connections, id: SessionId, d: Option<ConnectionData>): Connections {
    if d.Some? then conns[id := d.value] else conns
  }

  class ConnectionHealthTracker {
    var connections: Connections
    const config: Config

    constructor (config: Config)
      ensures this.config == config && connections == map[]
    {
      this.config, connections := config, map[];
    }

    method RecordActivity(id: SessionId, now: int)
      modifies this`connections
      ensures connections == old(connections)[id := OnActivity(Track(old(connections), id), now)]
    {
      var data;
      if id !in connections {
        data := ConnectionData(now, HEALTHY, now, 0, 0);
      } else {
        data := connections[id];
        var previousState := data.state;
        data := data.(lastActivity := now, state := HEALTHY);
        if previousState != HEALTHY {
          data := data.(stateChangedAt := now);
          if previousState == RECONNECTING {
            data := data.(successfulReconnects := data.successfulReconnects + 1);
          }
        }
      }
      connections := connections[id := data];
    }

    method RecordReconnectAttempt(id: SessionId, now: int)
      modifies this`connections
      ensures connections == old(connections)[id := OnReconnectAttempt(Track(old(connections), id), now)]
    {
      var data;
      if id !in connections {
        data := ConnectionData(0, RECONNECTING, now, 1, 0);
      } else {
        data := connections[id];
        if data.state != RECONNECTING {
          data := data.(stateChangedAt := now);
        }
        data := data.(state := RECONNECTING, reconnectAttempts := data.reconnectAttempts + 1);
      }
      connections := connections[id := data];
    }

    method RecordDisconnect(id: SessionId, now: int)
      modifies this`connections
      ensures connections == old(connections)[id := OnDisconnect(Track(old(connections), id), now)]
    {
      var data;
      if id !in connections {
        data := ConnectionData(0, DISCONNECTED, now, 0, 0);
      } else {
        data := connections[id];
        if data.state != DISCONNECTED {
          data := data.(stateChangedAt := now);
        }
        data := data.(state := DISCONNECTED);
      }
      connections := connections[id := data];
    }

    method CheckHealth(id: SessionId, now: int) returns (health: Health)
      modifies this`connections
      ensures health == HealthOf(config, Track(old(connections), id), now)
      ensures connections == Store(old(connections), id, OnCheck(config, Track(old(connections), id), now))
    {
      if id !in connections {
        return Health(DISCONNECTED, MAX_SAFE_INTEGER, RECONNECT);
      }
      var data := connections[id];
      if data.state == DISCONNECTED {
        return Health(DISCONNECTED, now - data.lastActivity, RECONNECT);
      }
      if data.state == RECONNECTING {
        return Health(RECONNECTING, now - data.lastActivity, NONE);
      }
      var silentMs := now - data.lastActivity;
      var status, recommendation := HEALTHY, NONE;
      if silentMs > config.disconnectThresholdMs {
        status, recommendation := DISCONNECTED, RECONNECT;
      } else if silentMs > config.silenceThresholdMs {
        status, recommendation := DEGRADED, PING;
      }
      if config.autoCheck && status != data.state {
        connections := connections[id := data.(state := status, stateChangedAt := now)];
      }
      health := Health(status, silentMs, recommendation);
    }

    /** The statistics are sums over the sessions, and every session is in exactly one state. */
    method GetStats()
      returns (healthy: nat, degraded: nat, disconnected: nat, reconnecting: nat, attempts: nat, successes: nat)
      ensures healthy == |InState(connections, HEALTHY)| && degraded == |InState(connections, DEGRADED)|
      ensures disconnected == |InState(connections, DISCONNECTED)|
      ensures reconnecting == |InState(connections, RECONNECTING)|
      ensures healthy + degraded + disconnected + reconnecting == |connections|
      ensures attempts == SumAttempts(connections) && successes == SumSuccesses(connections)
    {
      healthy, degraded, disconnected, reconnecting, attempts, successes := 0, 0, 0, 0, 0, 0;
      var rest := connections;
      while rest != map[]
        invariant rest.Keys <= connections.Keys && forall id :: id in rest ==> rest[id] == connections[id]
        invariant healthy + |InState(rest, HEALTHY)| == |InState(connections, HEALTHY)|
        invariant degraded + |InState(rest, DEGRADED)| == |InState(connections, DEGRADED)|
        invariant disconnected + |InState(rest, DISCONNECTED)| == |InState(connections, DISCONNECTED)|
        invariant reconnecting + |InState(rest, RECONNECTING)| == |InState(connections, RECONNECTING)|
        invariant healthy + degraded + disconnected + reconnecting + |rest| == |connections|
        invariant attempts + SumAttempts(rest) == SumAttempts(connections)
        invariant successes + SumSuccesses(rest) == SumSuccesses(connections)
        decreases |rest|
      {
        var id :| id in rest;
        var data := rest[id];
        RemoveOne(rest, id);
        match data.state {
          case HEALTHY => healthy := healthy + 1;
          case DEGRADED => degraded := degraded + 1;
          case DISCONNECTED => disconnected := disconnected + 1;
          case RECONNECTING => reconnecting := reconnecting + 1;
        }
        attempts := attempts + data.reconnectAttempts;
        successes := successes + data.successfulReconnects;
        rest := rest - {id};
      }
    }
  }

  function InState(conns: Connections, state: ConnectionState): set<SessionId> {
    set id | id in conns && conns[id].state == state
  }

  ghost function SumAttempts(conns: Connections): nat {
    Total(map id | id in conns :: conns[id].reconnectAttempts)
  }

  ghost function SumSuccesses(conns: Connections): nat {
    Total(map id | id in conns :: conns[id].successfulReconnects)
  }

  /** What leaves the statistics when one session is taken out. */
  lemma RemoveOne(conns: Connections, id: SessionId)
    requires id in conns
    ensures SumAttempts(conns) == conns[id].reconnectAttempts + SumAttempts(conns - {id})
    ensures SumSuccesses(conns) == conns[id].successfulReconnects + SumSuccesses(conns - {id})
    ensures forall s: ConnectionState ::
              |InState(conns, s)| == |InState(conns - {id}, s)| + if conns[id].state == s then 1 else 0
    ensures |conns| == |conns - {id}| + 1
  {
    var attempts: map<SessionId, nat> := map i | i in conns :: conns[i].reconnectAttempts;
    var successes: map<SessionId, nat> := map i | i in conns :: conns[i].successfulReconnects;
    TotalTakesAny(attempts, id);
    TotalTakesAny(successes, id);
    assert attempts - {id} == map i | i in conns - {id} :: (conns - {id})[i].reconnectAttempts;
    assert successes - {id} == map i | i in conns - {id} :: (conns - {id})[i].successfulReconnects;
    assert (conns - {id}).Keys == conns.Keys - {id};
    forall s: ConnectionState
      ensures |InState(conns, s)| == |InState(conns - {id}, s)| + if conns[id].state == s then 1 else 0
    {
      var rest := InState(conns - {id}, s);
      assert InState(conns, s) == if conns[id].state == s then rest + {id} else rest;
    }
  }

  // ----- runs -----

  /** A probe is a checkHealth call that was inserted. */
  datatype Event =
    | Activity(id: SessionId, at: int)
    | ReconnectAttempt(id: SessionId, at: int)
    | Disconnect(id: SessionId, at: int)
    | Check(id: SessionId, at: int, probe: bool)
    | Reset(id: SessionId, at: int)

  /** What a caller may observe of a session: the health reported and the two reconnect counters. */
  datatype Report = Report(health: Health, attempts: nat, successes: nat)

  function Counters(d: Option<ConnectionData>): (nat, nat) {
    if d.Some? then (d.value.reconnectAttempts, d.value.successfulReconnects) else (0, 0)
  }

  function After(c: Config, conns: Connections, e: Event): Connections {
    match e
    case Activity(id, at) => conns[id := OnActivity(Track(conns, id), at)]
    case ReconnectAttempt(id, at) => conns[id := OnReconnectAttempt(Track(conns, id), at)]
    case Disconnect(id, at) => conns[id := OnDisconnect(Track(conns, id), at)]
    case Check(id, at, _) => Store(conns, id, OnCheck(c, Track(conns, id), at))
    case Reset(id, at) => conns - {id}
  }

  function IsProbe(e: Event): bool {
    e.Check? && e.probe
  }

  /** The reports of the checks that were not inserted. */
  function Reports(c: Config, conns: Connections, events: seq<Event>): seq<Report>
    decreases |events|
  {
    if events == [] then []
    else
      var e := events[0];
      var (attempts, successes) := Counters(Track(conns, e.id));
      (if e.Check? && !e.probe then [Report(HealthOf(c, Track(conns, e.id), e.at), attempts, successes)] else [])
      + Reports(c, After(c, conns, e), events[1..])
  }

  function WithoutProbes(events: seq<Event>): seq<Event> {
    if events == [] then [] else (if IsProbe(events[0]) then [] else [events[0]]) + WithoutProbes(events[1..])
  }

  predicate Monotone(events: seq<Event>, from: int) {
    events == [] || (from <= events[0].at && Monotone(events[1..], events[0].at))
  }

  /** Silence alone would report it disconnected, now and until its next event. */
  predicate TimedOut(c: Config, d: ConnectionData, now: int) {
    now - d.lastActivity > c.disconnectThresholdMs
  }

  predicate Soft(c: Config, d: ConnectionData, now: int) {
    Judged(d) || (d.state == DISCONNECTED && TimedOut(c, d, now))
  }

  /** Records that differ at most in how far a check has already recorded their silence. */
  predicate Alike(c: Config, a: Option<ConnectionData>, b: Option<ConnectionData>, now: int) {
    (a.None? && b.None?) ||
    (a.Some? && b.Some?
     && a.value.lastActivity == b.value.lastActivity
     && Counters(a) == Counters(b)
     && (a.value.state == b.value.state || (Soft(c, a.value, now) && Soft(c, b.value, now))))
  }

  ghost predicate AllAlike(c: Config, a: Connections, b: Connections, now: int) {
    forall id: SessionId :: Alike(c, Track(a, id), Track(b, id), now)
  }

  lemma AlikeReportAlike(c: Config, a: Option<ConnectionData>, b: Option<ConnectionData>, now: int, later: int)
    requires Alike(c, a, b, now) && now <= later
    ensures Alike(c, a, b, later)
    ensures HealthOf(c, a, later) == HealthOf(c, b, later) && Counters(a) == Counters(b)
    ensures Alike(c, OnCheck(c, a, later), b, later)
    ensures Alike(c, OnCheck(c, a, later), OnCheck(c, b, later), later)
  {
  }

  lemma EventKeepsAlike(c: Config, a: Connections, b: Connections, now: int, e: Event)
    requires AllAlike(c, a, b, now) && now <= e.at
    ensures e.Check? ==> AllAlike(c, After(c, a, e), b, e.at)
    ensures AllAlike(c, After(c, a, e), After(c, b, e), e.at)
  {
    forall id: SessionId
      ensures e.Check? ==> Alike(c, Track(After(c, a, e), id), Track(b, id), e.at)
      ensures Alike(c, Track(After(c, a, e), id), Track(After(c, b, e), id), e.at)
    {
      AlikeReportAlike(c, Track(a, id), Track(b, id), now, e.at);
    }
  }

  /** Health checks are pure observers, with autoCheck on or off: inserting any number of them anywhere
      changes no later status, silence, recommendation or reconnect counter. */
  lemma {:induction false} ProbesChangeNothing(c: Config, a: Connections, b: Connections, events: seq<Event>, now: int)
    requires AllAlike(c, a, b, now) && Monotone(events, now)
    ensures Reports(c, a, events) == Reports(c, b, WithoutProbes(events))
    decreases |events|
  {
    if events != [] {
      var e := events[0];
      EventKeepsAlike(c, a, b, now, e);
      AlikeReportAlike(c, Track(a, e.id), Track(b, e.id), now, e.at);
      if IsProbe(e) {
        ProbesChangeNothing(c, After(c, a, e), b, events[1..], e.at);
        assert WithoutProbes(events) == WithoutProbes(events[1..]);
      } else {
        ProbesChangeNothing(c, After(c, a, e), After(c, b, e), events[1..], e.at);
        assert WithoutProbes(events)[1..] == WithoutProbes(events[1..]);
      }
    }
  }

  /** The stored state does change under a probe, so the statistics by state are no such observers. */
  lemma StoredStatesDiffer()
    ensures var c := Config(300000, 600000, true);
            var conns := map["s" := ConnectionData(0, HEALTHY, 0, 0, 0)];
            After(c, conns, Check("s", 600001, true))["s"].state == DISCONNECTED && conns["s"].state == HEALTHY
  {
  }

  // ----- what a check tells of the events recorded -----

  /** The records after a run that starts with none. */
  function Run(c: Config, events: seq<Event>): Connections
    decreases |events|
  {
    if events == [] then map[] else After(c, Run(c, events[..|events| - 1]), events[|events| - 1])
  }

  /** The clock does not run backwards, up to now. */
  predicate Ordered(events: seq<Event>, now: int) {
    && (forall i, j :: 0 <= i < j < |events| ==> events[i].at <= events[j].at)
    && (forall i :: 0 <= i < |events| ==> events[i].at <= now)
  }

  /** The event recorded last of a session since it was last reset; checks record none. */
  function LastRecorded(events: seq<Event>, id: SessionId): Option<Event>
    decreases |events|
  {
    if events == [] then None
    else
      var e := events[|events| - 1];
      if e.id != id || e.Check? then LastRecorded(events[..|events| - 1], id)
      else if e.Reset? then None
      else Some(e)
  }

  /** When the session was last active since it was last reset. */
  function LastActive(events: seq<Event>, id: SessionId): Option<int>
    decreases |events|
  {
    if events == [] then None
    else
      var e := events[|events| - 1];
      if e.id == id && e.Activity? then Some(e.at)
      else if e.id == id && e.Reset? then None
      else LastActive(events[..|events| - 1], id)
  }

  function Attempts(events: seq<Event>, id: SessionId): nat
    decreases |events|
  {
    if events == [] then 0
    else
      var e, before := events[|events| - 1], Attempts(events[..|events| - 1], id);
      if e.id == id && e.ReconnectAttempt? then before + 1
      else if e.id == id && e.Reset? then 0
      else before
  }

  /** The activities that ended a reconnection: nothing else was recorded since the attempt. */
  function Successes(events: seq<Event>, id: SessionId): nat
    decreases |events|
  {
    if events == [] then 0
    else
      var e, front := events[|events| - 1], events[..|events| - 1];
      var last := LastRecorded(front, id);
      if e.id == id && e.Reset? then 0
      else if e.id == id && e.Activity? && last.Some? && last.value.ReconnectAttempt? then Successes(front, id) + 1
      else Successes(front, id)
  }

  /** The record a run leaves, whatever checks it contains. */
  predicate Recorded(c: Config, d: Option<ConnectionData>, events: seq<Event>, id: SessionId, now: int) {
    var last := LastRecorded(events, id);
    && (d.Some? <==> last.Some?)
    && Counters(d) == (Attempts(events, id), Successes(events, id))
    && (d.None? ==> LastActive(events, id).None?)
    && (d.Some? ==>
          && d.value.lastActivity == GetOr(LastActive(events, id), 0)
          && match last.value
             case Activity(_, at) => LastActive(events, id) == Some(at) && Soft(c, d.value, now)
             case ReconnectAttempt(_, _) => d.value.state == RECONNECTING
             case Disconnect(_, _) => d.value.state == DISCONNECTED
             case _ => false)
  }

  lemma {:induction false} RunRecords(c: Config, events: seq<Event>, id: SessionId, now: int)
    requires Ordered(events, now)
    ensures Recorded(c, Track(Run(c, events), id), events, id, now)
    decreases |events|
  {
    if events != [] {
      var before, e := events[..|events| - 1], events[|events| - 1];
      RunRecords(c, before, id, e.at);
      var d := Track(Run(c, before), id);
      assert e.id != id ==> Track(Run(c, events), id) == d;
    }
  }

  /** What a check reports, told from the events alone. A session nobody has seen is disconnected; a disconnect or a
      reconnect attempt stands until the next event; after an activity its age decides. Checks before it, with
      autoCheck on or off, make no difference. */
  lemma ChecksTellTheLastEvent(c: Config, events: seq<Event>, id: SessionId, now: int)
    requires Ordered(events, now)
    ensures var health := HealthOf(c, Track(Run(c, events), id), now);
            match LastRecorded(events, id)
            case None => health == Health(DISCONNECTED, 9007199254740991, RECONNECT)
            case Some(Disconnect(_, _)) =>
              health == Health(DISCONNECTED, now - GetOr(LastActive(events, id), 0), RECONNECT)
            case Some(ReconnectAttempt(_, _)) =>
              health == Health(RECONNECTING, now - GetOr(LastActive(events, id), 0), NONE)
            case Some(last) =>
              && last.Activity? && health.silentMs == now - last.at
              && (now - last.at > c.disconnectThresholdMs ==>
                    health.status == DISCONNECTED && health.recommendation == RECONNECT)
              && (c.silenceThresholdMs < now - last.at <= c.disconnectThresholdMs ==>
                    health.status == DEGRADED && health.recommendation == PING)
              && (now - last.at <= c.silenceThresholdMs && now - last.at <= c.disconnectThresholdMs ==>
                    health.status == HEALTHY && health.recommendation == NONE)
    ensures Counters(Track(Run(c, events), id)) == (Attempts(events, id), Successes(events, id))
  {
    RunRecords(c, events, id, now);
    hide Run;
  }

  /** stateChangedAt is the instant of the event that changed the state, checks included. */
  lemma StateChangesAreDated(c: Config, conns: Connections, e: Event)
    requires e.id in After(c, conns, e)
    ensures var after := After(c, conns, e)[e.id];
            after.stateChangedAt ==
              if e.id in conns && after.state == conns[e.id].state then conns[e.id].stateChangedAt else e.at
  {
  }

  /** checkHealth on a tracker to which these events happened. */
  method CheckAfterRun(tracker: ConnectionHealthTracker, ghost events: seq<Event>, id: SessionId, now: int)
    returns (health: Health)
    requires tracker.connections == Run(tracker.config, events) && Ordered(events, now)
    modifies tracker`connections
    ensures tracker.connections == Run(tracker.config, events + [Check(id, now, false)])
    ensures match LastRecorded(events, id)
            case None => health.status == DISCONNECTED && health.recommendation == RECONNECT
            case Some(Disconnect(_, _)) => health.status == DISCONNECTED && health.recommendation == RECONNECT
            case Some(ReconnectAttempt(_, _)) => health.status == RECONNECTING && health.recommendation == NONE
            case Some(last) =>
              health.silentMs == now - last.at && (health.status, health.recommendation) ==
                if now - last.at > tracker.config.disconnectThresholdMs then (DISCONNECTED, RECONNECT)
                else if now - last.at > tracker.config.silenceThresholdMs then (DEGRADED, PING)
                else (HEALTHY, NONE)
  {
    ChecksTellTheLastEvent(tracker.config, events, id, now);
    assert (events + [Check(id, now, false)])[..|events|] == events;
    health := tracker.CheckHealth(id, now);
  }
}
