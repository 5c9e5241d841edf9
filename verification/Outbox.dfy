/** The transactional outbox: pending Mongo writes in a Redis hash, retried by a reconciler. */
module Outbox {
  import opened AuthTypes

  datatype Status = Pending | Processing | Completed | Failed

  /** The hash key of the session and the field within it. */
  datatype EntryId = EntryId(session: SessionId, version: int)

  datatype Entry = Entry(patch: AuthPatch, fencingToken: Option<int>, status: Status, attempts: nat)

  datatype DeadRecord = DeadRecord(id: EntryId, patch: AuthPatch, fencingToken: Option<int>, attempts: nat)

  type Hash = map<EntryId, Entry>

  const MAX_RETRY_ATTEMPTS := 3

  predicate Eligible(e: Entry) {
    e.status == Pending || (e.status == Failed && e.attempts < MAX_RETRY_ATTEMPTS)
  }

  function EligibleIds(h: Hash): set<EntryId> {
    set id | id in h && Eligible(h[id])
  }

  function DeadRecordOf(id: EntryId, e: Entry): DeadRecord {
    DeadRecord(id, e.patch, e.fencingToken, e.attempts + 1)
  }

  /** The entries a pass gives up on, when `ok` says which Mongo writes succeed. */
  function DeadIds(h: Hash, ok: EntryId -> bool): set<EntryId> {
    set id | id in h && Eligible(h[id]) && !ok(id) && h[id].attempts >= MAX_RETRY_ATTEMPTS - 1
  }

  function DoneIds(h: Hash, ok: EntryId -> bool): set<EntryId> {
    set id | id in h && Eligible(h[id]) && ok(id)
  }

  /** An eligible entry after the pass that did not give up on it. */
  function Attempted(e: Entry, ok: bool): Entry {
    if ok then e.(status := Completed) else e.(status := Failed, attempts := e.attempts + 1)
  }

  /** One reconciler pass over the whole hash, entry by entry. */
  function Pass(h: Hash, ok: EntryId -> bool): Hash {
    map id | id in h && id !in DeadIds(h, ok) :: if Eligible(h[id]) then Attempted(h[id], ok(id)) else h[id]
  }

  datatype Stats = Stats(
    totalProcessed: nat, totalCompleted: nat, totalFailed: nat, totalRetried: nat, avgLatency: real)

  /** An entry of one session, as getPendingEntries returns it. */
  datatype PendingEntry = PendingEntry(version: int, entry: Entry)

  predicate Ascending(s: seq<PendingEntry>) {
    forall i, j :: 0 <= i < j < |s| ==> s[i].version < s[j].version
  }

  function Versions(s: seq<PendingEntry>): set<int> {
    set i | 0 <= i < |s| :: s[i].version
  }

  /** One step of the version sort. */
  method InsertByVersion(s: seq<PendingEntry>, e: PendingEntry) returns (r: seq<PendingEntry>)
    requires Ascending(s) && e.version !in Versions(s)
    ensures Ascending(r)
    ensures forall x :: x in r <==> x in s || x == e
  {
    var i := |s|;
    while i > 0 && e.version < s[i - 1].version
      invariant 0 <= i <= |s|
      invariant forall j :: i <= j < |s| ==> e.version < s[j].version
    {
      i := i - 1;
    }
    assert i > 0 ==> s[i - 1].version in Versions(s);
    r := s[..i] + [e] + s[i..];
    forall x | x in s ensures x in r {
      var j :| 0 <= j < |s| && s[j] == x;
      assert r[if j < i then j else j + 1] == x;
    }
    assert r[i] == e;
  }

  class OutboxManager {
    var entries: Hash
    var deadLetters: seq<DeadRecord>
    var scheduled: multiset<EntryId> // deletions of completed entries, each an hour after its timer was set
    var stats: Stats
    ghost var nonEmptyPassTime: real // the durations of all passes that found something

    /** The counters account for every entry processed; each dead letter was counted twice as failed. */
    ghost predicate Accounted()
      reads this
    {
      var d := |deadLetters|;
      && stats.totalProcessed == stats.totalCompleted + stats.totalRetried + d
      && stats.totalFailed == stats.totalRetried + 2 * d
      && stats.avgLatency * stats.totalProcessed as real == nonEmptyPassTime
    }

    constructor ()
      ensures Accounted() && entries == map[] && deadLetters == [] && nonEmptyPassTime == 0.0
      ensures scheduled == multiset{}
    {
      entries, deadLetters, scheduled := map[], [], multiset{};
      stats := Stats(0, 0, 0, 0, 0.0);
      nonEmptyPassTime := 0.0;
    }

    /** HSETNX: the first entry of a version stays. */
    method AddEntry(id: EntryId, patch: AuthPatch, fencingToken: Option<int>)
      modifies this`entries
      ensures entries == if id in old(entries) then old(entries)
                         else old(entries)[id := Entry(patch, fencingToken, Pending, 0)]
    {
      if id in entries { return; }
      entries := entries[id := Entry(patch, fencingToken, Pending, 0)];
    }

    /** An entry that is there is completed, and its deletion scheduled. */
    method MarkCompleted(id: EntryId)
      modifies this`entries, this`scheduled
      ensures entries == if id !in old(entries) then old(entries)
                         else old(entries)[id := old(entries)[id].(status := Completed)]
      ensures scheduled == old(scheduled) + if id in old(entries) then multiset{id} else multiset{}
    {
      if id !in entries { return; }
      var entry := entries[id];
      entry := entry.(status := Completed);
      entries := entries[id := entry];
      scheduled := scheduled + multiset{id};
    }

    /** A timer of MarkCompleted fires: the field goes whatever it holds by then, unless the command fails. */
    method DeleteCompleted(id: EntryId, ok: bool)
      requires id in scheduled
      modifies this`entries, this`scheduled
      ensures entries == if ok then old(entries) - {id} else old(entries)
      ensures scheduled == old(scheduled) - multiset{id}
    {
      if ok { entries := entries - {id}; }
      scheduled := scheduled - multiset{id};
    }

    method MarkFailed(id: EntryId)
      modifies this`entries
      ensures entries == if id !in old(entries) then old(entries)
                         else var e := old(entries)[id];
                              old(entries)[id := e.(status := Failed, attempts := e.attempts + 1)]
    {
      if id !in entries { return; }
      var entry := entries[id];
      entry := entry.(status := Failed, attempts := entry.attempts + 1);
      entries := entries[id := entry];
    }

    /** Exactly the session's eligible entries, in ascending version order. */
    method GetPendingEntries(session: SessionId) returns (pending: seq<PendingEntry>)
      ensures Ascending(pending)
      ensures forall x :: x in pending <==>
        EntryId(session, x.version) in entries && entries[EntryId(session, x.version)] == x.entry && Eligible(x.entry)
    {
      pending := [];
      ghost var visited: set<EntryId> := {};
      var ids := set id | id in entries && id.session == session;
      while ids != {}
        invariant ids + visited == set id | id in entries && id.session == session
        invariant ids !! visited
        invariant Ascending(pending)
        invariant forall x :: x in pending <==>
          EntryId(session, x.version) in visited && entries[EntryId(session, x.version)] == x.entry && Eligible(x.entry)
        decreases ids
      {
        var id :| id in ids;
        var entry := entries[id];
        if entry.status == Pending || (entry.status == Failed && entry.attempts < MAX_RETRY_ATTEMPTS) {
          pending := InsertByVersion(pending, PendingEntry(id.version, entry));
        }
        ids, visited := ids - {id}, visited + {id};
      }
    }

    /** LPUSH on the dead letter list, then HDEL. */
    method MoveToDeadLetter(id: EntryId, entry: Entry)
      modifies this`entries, this`deadLetters
      ensures entries == old(entries) - {id}
      ensures deadLetters == [DeadRecordOf(id, entry)] + old(deadLetters)
    {
      deadLetters := [DeadRecord(id, entry.patch, entry.fencingToken, entry.attempts + 1)] + deadLetters;
      entries := entries - {id};
    }

    /** One worker of a pass: mark, write to Mongo, and book the outcome. */
    method ReconcileEntry(id: EntryId, collected: Entry, mongoOk: bool)
      requires id in entries && entries[id] == collected && Eligible(collected)
      modifies this`entries, this`deadLetters, this`scheduled, this`stats
      ensures scheduled == old(scheduled) + if mongoOk then multiset{id} else multiset{}
      ensures var dead := !mongoOk && collected.attempts >= MAX_RETRY_ATTEMPTS - 1;
              && entries == (if dead then old(entries) - {id} else old(entries)[id := Attempted(collected, mongoOk)])
              && deadLetters == (if dead then [DeadRecordOf(id, collected)] else []) + old(deadLetters)
              && stats.totalProcessed == old(stats.totalProcessed) && stats.avgLatency == old(stats.avgLatency)
              && stats.totalCompleted == old(stats.totalCompleted) + (if mongoOk then 1 else 0)
              && stats.totalRetried == old(stats.totalRetried) + (if mongoOk || dead then 0 else 1)
              && stats.totalFailed == old(stats.totalFailed) + (if mongoOk then 0 else if dead then 2 else 1)
    {
      var entry := collected.(status := Processing);
      entries := entries[id := entry];
      if mongoOk {
        MarkCompleted(id);
        stats := stats.(totalCompleted := stats.totalCompleted + 1);
      } else {
        if entry.attempts >= MAX_RETRY_ATTEMPTS - 1 {
          MoveToDeadLetter(id, entry);
          stats := stats.(totalFailed := stats.totalFailed + 1);
        } else {
          MarkFailed(id);
          stats := stats.(totalRetried := stats.totalRetried + 1);
        }
        stats := stats.(totalFailed := stats.totalFailed + 1);
      }
    }

    /** The workers of a pass, in any order. */
    method ReconcileAll(all: set<EntryId>, mongoOk: EntryId -> bool)
      returns (processed: nat, ghost moved: seq<DeadRecord>)
      requires all == EligibleIds(entries)
      modifies this`entries, this`deadLetters, this`scheduled, this`stats
      ensures Scheduled(scheduled, old(scheduled), old(entries), {}, mongoOk)
      ensures entries == Pass(old(entries), mongoOk)
      ensures deadLetters == moved + old(deadLetters) && Moved(old(entries), {}, mongoOk, moved)
      ensures stats.totalProcessed == old(stats.totalProcessed) && stats.avgLatency == old(stats.avgLatency)
      ensures processed == stats.totalCompleted - old(stats.totalCompleted)
      ensures stats.totalCompleted + stats.totalRetried + |moved|
           == old(stats.totalCompleted + stats.totalRetried) + |all|
      ensures stats.totalFailed == old(stats.totalFailed) + (stats.totalRetried - old(stats.totalRetried)) + 2 * |moved|
    {
      processed, moved := 0, [];
      ghost var h := entries;
      var ids := all;
      PassBegins(h, mongoOk, scheduled);
      hide Scheduled;
      hide PassSoFar;
      hide DeadIds;
      hide Moved;
      hide Pass;
      while ids != {}
        invariant ids <= all
        invariant entries == PassSoFar(h, ids, mongoOk)
        invariant Scheduled(scheduled, old(scheduled), h, ids, mongoOk)
        invariant deadLetters == moved + old(deadLetters) && Moved(h, ids, mongoOk, moved)
        invariant stats.totalProcessed == old(stats.totalProcessed) && stats.avgLatency == old(stats.avgLatency)
        invariant processed == stats.totalCompleted - old(stats.totalCompleted)
        invariant stats.totalCompleted + stats.totalRetried + |moved| + |ids|
               == old(stats.totalCompleted + stats.totalRetried) + |all|
        invariant stats.totalFailed
               == old(stats.totalFailed) + (stats.totalRetried - old(stats.totalRetried)) + 2 * |moved|
        decreases ids
      {
        var id :| id in ids;
        PassStep(h, ids, id, mongoOk, moved);
        ScheduledStep(scheduled, old(scheduled), h, ids, id, mongoOk);
        if id in DeadIds(h, mongoOk) {
          moved := [DeadRecordOf(id, h[id])] + moved;
        }
        var ok := mongoOk(id);
        ReconcileEntry(id, entries[id], ok);
        if ok { processed := processed + 1; }
        ids := ids - {id};
      }
      PassEnds(h, mongoOk);
    }

    /** One pass with reachable Redis. `mongoOk` says which writes Mongo accepts and `duration` how long
        the pass takes; `processed` counts the writes accepted, `moved` is what joins the dead letter list. */
    method Reconcile(mongoOk: EntryId -> bool, duration: real) returns (processed: nat, ghost moved: seq<DeadRecord>)
      requires Accounted()
      modifies this
      ensures Accounted()
      ensures scheduled == old(scheduled) + multiset(DoneIds(old(entries), mongoOk))
      ensures entries == Pass(old(entries), mongoOk)
      ensures deadLetters == moved + old(deadLetters)
      ensures forall r :: r in moved <==>
        r.id in DeadIds(old(entries), mongoOk) && r == DeadRecordOf(r.id, old(entries)[r.id])
      ensures processed == stats.totalCompleted - old(stats.totalCompleted)
      ensures nonEmptyPassTime == old(nonEmptyPassTime) + if EligibleIds(old(entries)) == {} then 0.0 else duration
      ensures stats.totalProcessed == old(stats.totalProcessed) + |EligibleIds(old(entries))|
    {
      var all := set id | id in entries && Eligible(entries[id]);
      assert all == EligibleIds(entries);
      ghost var h := entries;
      processed, moved := ReconcileAll(all, mongoOk);
      assert DoneIds(h, mongoOk) - {} == DoneIds(h, mongoOk);
      if all == {} {
        return;
      }
      var n := |all|;
      var before := stats.avgLatency;
      stats := stats.(totalProcessed := stats.totalProcessed + n);
      stats := stats.(avgLatency :=
        (before * (stats.totalProcessed - n) as real + duration) / stats.totalProcessed as real);
      nonEmptyPassTime := nonEmptyPassTime + duration;
    }
  }

  /** The hash when the eligible ids in `remaining` are still to be processed. */
  function PassSoFar(h: Hash, remaining: set<EntryId>, ok: EntryId -> bool): Hash {
    map id | id in h && (id in remaining || id !in DeadIds(h, ok))
      :: if Eligible(h[id]) && id !in remaining then Attempted(h[id], ok(id)) else h[id]
  }

  /** These are the deletions scheduled by then. */
  predicate Scheduled(now: multiset<EntryId>, before: multiset<EntryId>, h: Hash, remaining: set<EntryId>,
                      ok: EntryId -> bool)
  {
    now == before + multiset(DoneIds(h, ok) - remaining)
  }

  /** These are the dead letters pushed by then. */
  ghost predicate Moved(h: Hash, remaining: set<EntryId>, ok: EntryId -> bool, moved: seq<DeadRecord>) {
    forall r :: r in moved <==> r.id in DeadIds(h, ok) && r.id !in remaining && r == DeadRecordOf(r.id, h[r.id])
  }

  lemma PassBegins(h: Hash, ok: EntryId -> bool, scheduled: multiset<EntryId>)
    ensures PassSoFar(h, EligibleIds(h), ok) == h
    ensures Moved(h, EligibleIds(h), ok, []) && Scheduled(scheduled, scheduled, h, EligibleIds(h), ok)
  {
    assert DoneIds(h, ok) - EligibleIds(h) == {};
  }

  lemma PassEnds(h: Hash, ok: EntryId -> bool)
    ensures PassSoFar(h, {}, ok) == Pass(h, ok)
  {
  }

  lemma PassStep(h: Hash, remaining: set<EntryId>, id: EntryId, ok: EntryId -> bool, moved: seq<DeadRecord>)
    requires id in remaining && remaining <= EligibleIds(h) && Moved(h, remaining, ok, moved)
    ensures var now, then' := PassSoFar(h, remaining, ok), PassSoFar(h, remaining - {id}, ok);
            && id in now && now[id] == h[id] && Eligible(h[id])
            && then' == if id in DeadIds(h, ok) then now - {id} else now[id := Attempted(h[id], ok(id))]
    ensures id in DeadIds(h, ok) <==> !ok(id) && h[id].attempts >= MAX_RETRY_ATTEMPTS - 1
    ensures Moved(h, remaining - {id}, ok, (if id in DeadIds(h, ok) then [DeadRecordOf(id, h[id])] else []) + moved)
  {
    MovedStep(h, remaining, id, ok, moved);
    hide Moved;
  }

  lemma ScheduledStep(now: multiset<EntryId>, before: multiset<EntryId>, h: Hash, remaining: set<EntryId>,
                      id: EntryId, ok: EntryId -> bool)
    requires id in remaining && remaining <= EligibleIds(h) && Scheduled(now, before, h, remaining, ok)
    ensures Scheduled(now + if ok(id) then multiset{id} else multiset{}, before, h, remaining - {id}, ok)
  {
    var done := DoneIds(h, ok);
    assert done - (remaining - {id}) == done - remaining + if ok(id) then {id} else {};
  }

  lemma MovedStep(h: Hash, remaining: set<EntryId>, id: EntryId, ok: EntryId -> bool, moved: seq<DeadRecord>)
    requires id in remaining && remaining <= EligibleIds(h) && Moved(h, remaining, ok, moved)
    ensures Moved(h, remaining - {id}, ok, (if id in DeadIds(h, ok) then [DeadRecordOf(id, h[id])] else []) + moved)
  {
  }
}
