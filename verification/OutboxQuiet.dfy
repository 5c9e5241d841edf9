/** A process of the outbox protocol left to itself: what its commands amount to. */
module OutboxQuiet {
  import opened AuthTypes
  import opened Outbox
  import opened OutboxProtocol

  /** The system after process i has sent its next commands, with nothing in between. */
  function Alone(s: System, i: nat, results: seq<CommandResult>): System
    decreases |results|
  {
    if results == [] || !Legal(s, Advance(i, results[0])) then s
    else Alone(Next(s, Advance(i, results[0])), i, results[1..])
  }

  lemma OneMoreCommand(s: System, i: nat, result: CommandResult, rest: seq<CommandResult>)
    requires Legal(s, Advance(i, result))
    ensures Alone(s, i, [result] + rest) == Alone(Next(s, Advance(i, result)), i, rest)
  {
    assert ([result] + rest)[1..] == rest;
  }

  /** A process that has ended is all that is left of it. */
  function Over(s: System, i: nat): System
    requires i < |s.processes|
  {
    s.(processes := s.processes[i := Ended])
  }

  predicate JustIssued(s: System, i: nat, id: EntryId, patch: AuthPatch, token: Option<int>) {
    i < |s.processes| && s.processes[i] == Setter(id, patch, token, AddEntry)
  }

  /** A set whose outbox and queue commands succeed leaves its fresh entry pending and is acknowledged. */
  lemma QueuedSetLeavesItsEntry(s: System, i: nat, id: EntryId, patch: AuthPatch, token: Option<int>)
    requires JustIssued(s, i, id, patch, token) && id !in s.hash
    ensures Alone(s, i, [Done, Done, Done]) ==
      Over(s, i).(hash := s.hash[id := Entry(patch, token, Pending, 0)], acknowledged := s.acknowledged + {id})
  {
    var s1 := Next(s, Advance(i, Done));
    var s2 := Next(s1, Advance(i, Done));
    assert s1.processes[i].at == ExpireHash && s2.processes[i].at == QueueAdd;
    OneMoreCommand(s2, i, Done, []);
    OneMoreCommand(s1, i, Done, [Done]);
    OneMoreCommand(s, i, Done, [Done, Done]);
    assert Next(s2, Advance(i, Done)).processes == s.processes[i := Ended];
  }

  /** The direct write of a set, from the command on: Mongo has the patch, and the entry, if there is one, is completed
      and its deletion scheduled. */
  lemma DirectWriteCompletesItsEntry(s: System, i: nat, id: EntryId, patch: AuthPatch, token: Option<int>)
    requires i < |s.processes| && s.processes[i] == Setter(id, patch, token, DirectWrite)
    ensures var written := Over(s, i).(accepted := s.accepted + {Write(id, patch)},
                                       acknowledged := s.acknowledged + {id});
            Alone(s, i, [Done, Done, Done]) ==
              if id !in s.hash then written
              else written.(hash := s.hash[id := s.hash[id].(status := Completed)], timers := s.timers + {id})
  {
    var s1 := Next(s, Advance(i, Done));
    var s2 := Next(s1, Advance(i, Done));
    assert s1.processes[i].at == CompleteRead;
    OneMoreCommand(s1, i, Done, [Done]);
    OneMoreCommand(s, i, Done, [Done, Done]);
    if id in s.hash {
      assert s2.processes[i].at == CompleteWrite(s.hash[id]);
      OneMoreCommand(s2, i, Done, []);
      assert Next(s2, Advance(i, Done)).processes == s.processes[i := Ended];
    } else {
      assert s2.processes == s.processes[i := Ended];
    }
  }

  /** A set that the queue refuses, or whose outbox entry or its expiry cannot be set, goes on to that direct write. */
  lemma RefusedSetWritesDirectly(s: System, i: nat, id: EntryId, patch: AuthPatch, token: Option<int>)
    requires JustIssued(s, i, id, patch, token) && id !in s.hash
    ensures var direct := s.(processes := s.processes[i := Setter(id, patch, token, DirectWrite)]);
            var added := direct.(hash := s.hash[id := Entry(patch, token, Pending, 0)]);
            && Alone(s, i, [Done, Done, NotApplied]) == added && Alone(s, i, [Done, NotApplied]) == added
            && Alone(s, i, [NotApplied]) == direct && Alone(s, i, [Unacknowledged]) == added
  {
    var s1 := Next(s, Advance(i, Done));
    var s2 := Next(s1, Advance(i, Done));
    assert s1.processes[i].at == ExpireHash && s2.processes[i].at == QueueAdd;
    OneMoreCommand(s2, i, NotApplied, []);
    OneMoreCommand(s1, i, Done, [NotApplied]);
    OneMoreCommand(s, i, Done, [Done, NotApplied]);
    OneMoreCommand(s1, i, NotApplied, []);
    OneMoreCommand(s, i, Done, [NotApplied]);
    OneMoreCommand(s, i, NotApplied, []);
    OneMoreCommand(s, i, Unacknowledged, []);
    assert Next(s2, Advance(i, NotApplied)).processes == s.processes[i := Setter(id, patch, token, DirectWrite)];
    assert Next(s1, Advance(i, NotApplied)).processes == s.processes[i := Setter(id, patch, token, DirectWrite)];
  }

  /** A set whose direct write, or whose completion mark, fails ends without being acknowledged, and what did not take
      effect changed nothing. */
  lemma FailedSetIsNotAcknowledged(s: System, i: nat, result: CommandResult)
    requires i < |s.processes| && s.processes[i].Setter? && !result.Done?
    requires s.processes[i].at.DirectWrite? || s.processes[i].at.CompleteRead? || s.processes[i].at.CompleteWrite?
    ensures var next := Next(s, Advance(i, result));
            && next.processes == s.processes[i := Ended] && next.acknowledged == s.acknowledged
            && (result.NotApplied? ==> next == Over(s, i))
  {
  }

  predicate JustCollected(s: System, i: nat, id: EntryId) {
    i < |s.processes| && id in s.hash && s.processes[i] == Worker(id, s.hash[id], MarkProcessing)
  }

  /** A worker whose Mongo write is accepted completes its entry and schedules the deletion. */
  lemma AcceptedEntryIsCompleted(s: System, i: nat, id: EntryId)
    requires JustCollected(s, i, id)
    ensures Alone(s, i, [Done, Done, Done, Done]) ==
      Over(s, i).(hash := s.hash[id := s.hash[id].(status := Completed)],
                  accepted := s.accepted + {Write(id, s.hash[id].patch)}, timers := s.timers + {id})
  {
    var s1 := Next(s, Advance(i, Done));
    var s2 := Next(s1, Advance(i, Done));
    var s3 := Next(s2, Advance(i, Done));
    assert s1.processes[i].pc == MongoWrite && s2.processes[i].pc == ReadToComplete;
    assert s3.processes[i].pc == WriteCompleted(s.hash[id].(status := Processing));
    OneMoreCommand(s3, i, Done, []);
    OneMoreCommand(s2, i, Done, [Done]);
    OneMoreCommand(s1, i, Done, [Done, Done]);
    OneMoreCommand(s, i, Done, [Done, Done, Done]);
    assert Next(s3, Advance(i, Done)).processes == s.processes[i := Ended];
  }

  /** A worker that Mongo refuses books a failure, or, at the third attempt, moves the entry to the dead letters. */
  lemma RefusedEntryIsRetriedOrBuried(s: System, i: nat, id: EntryId)
    requires JustCollected(s, i, id)
    ensures var e := s.hash[id];
            Alone(s, i, [Done, NotApplied, Done, Done]) ==
              if e.attempts >= 2 then
                Over(s, i).(hash := s.hash - {id},
                            deadLetters := [DeadRecord(id, e.patch, e.fencingToken, e.attempts + 1)] + s.deadLetters)
              else Over(s, i).(hash := s.hash[id := e.(status := Failed, attempts := e.attempts + 1)])
  {
    var e := s.hash[id];
    var s1 := Next(s, Advance(i, Done));
    var s2 := Next(s1, Advance(i, NotApplied));
    var s3 := Next(s2, Advance(i, Done));
    assert s1.processes[i].pc == MongoWrite;
    if e.attempts >= 2 {
      assert s2.processes[i].pc == PushDead && s3.processes[i].pc == RemoveDead;
    } else {
      assert s2.processes[i].pc == ReadToFail && s3.processes[i].pc == WriteFailed(e.(status := Processing));
    }
    OneMoreCommand(s3, i, Done, []);
    OneMoreCommand(s2, i, Done, [Done]);
    OneMoreCommand(s1, i, NotApplied, [Done, Done]);
    OneMoreCommand(s, i, Done, [NotApplied, Done, Done]);
    assert Next(s3, Advance(i, Done)).processes == s.processes[i := Ended];
  }

  /** Whatever command of its try block fails, the worker goes on to book the failure, or at the third attempt to bury
      the entry; a command that was not applied changed nothing else. */
  lemma FailedCommandIsCaught(s: System, i: nat, result: CommandResult)
    requires i < |s.processes| && s.processes[i].Worker? && !result.Done?
    requires var pc := s.processes[i].pc;
             pc.MarkProcessing? || pc.MongoWrite? || pc.ReadToComplete? || pc.WriteCompleted?
    ensures var w, next := s.processes[i], Next(s, Advance(i, result));
            var caught := w.(pc := if w.copy.attempts >= 2 then PushDead else ReadToFail);
            && next.processes == s.processes[i := caught]
            && (result.NotApplied? ==> next == s.(processes := s.processes[i := caught]))
  {
  }

  /** The timer of a completed entry takes it out of the outbox, when Mongo has its patch; a lost timer leaves it. */
  lemma TimersRemoveWrittenEntries(s: System, id: EntryId)
    requires Inv(s) && id in s.timers
    ensures InMongo(s, id)
    ensures Next(s, TimerFires(id)) == s.(hash := s.hash - {id}, timers := s.timers - {id})
    ensures Next(s, TimerLost(id)) == s.(timers := s.timers - {id})
  {
  }
}
