/** Runs of a single reconciler with reachable Redis: every pending entry is settled within three passes. */
module OutboxDrain {
  import opened AuthTypes
  import opened Outbox

  /** The outbox together with what happened to entries so far: Mongo attempts made for each, entries
      that were completed, and dead letter records by id. */
  datatype State = State(
    hash: Hash, tries: map<EntryId, nat>, done: set<EntryId>, dead: map<EntryId, DeadRecord>)

  function TriesOf(s: State, id: EntryId): nat {
    if id in s.tries then s.tries[id] else 0
  }

  function AfterPass(s: State, ok: EntryId -> bool): State {
    State(Pass(s.hash, ok),
          map id | id in s.tries.Keys + EligibleIds(s.hash)
            :: TriesOf(s, id) + (if id in EligibleIds(s.hash) then 1 else 0),
          s.done + DoneIds(s.hash, ok),
          s.dead + map id | id in DeadIds(s.hash, ok) :: DeadRecordOf(id, s.hash[id]))
  }

  /** What setters and timers do to the outbox while a pass runs or before the next: add entries under fresh
      ids, complete an entry after a direct Mongo write, or delete a completed one. A setter's last command
      writes back what it read, so it may complete an entry that has moved on meanwhile, or bring one back
      that is already a dead letter. */
  predicate SettersMayDo(s: State, s': State) {
    && s'.tries == s.tries && s'.dead == s.dead
    && s.done <= s'.done
    && (forall id :: id in s.hash ==>
          || (id in s'.hash && s'.hash[id] == s.hash[id])
          || WrittenCompleted(s', id)
          || (id !in s'.hash && id in s'.done))
    && (forall id :: id in s'.hash && id !in s.hash ==>
          || (s'.hash[id].status == Pending && s'.hash[id].attempts == 0 && id !in s.tries)
          || WrittenCompleted(s', id))
  }

  predicate WrittenCompleted(s: State, id: EntryId) {
    id in s.hash && s.hash[id].status == Completed && s.hash[id].attempts < MAX_RETRY_ATTEMPTS && id in s.done
  }

  /** Between passes nothing stored was tried three times, and each attempt of an open entry is on its
      counter. Entries that an earlier crash left processing may be there, pushed to the dead letters or not. */
  predicate Inv(s: State) {
    && (forall id :: id in s.hash ==>
          && s.hash[id].attempts < MAX_RETRY_ATTEMPTS
          && (s.hash[id].status == Completed ==> id in s.done)
          && (Eligible(s.hash[id]) ==> TriesOf(s, id) == s.hash[id].attempts))
    && (forall id :: id in s.tries ==> s.tries[id] <= MAX_RETRY_ATTEMPTS)
    && (forall id :: id in s.dead ==>
          s.dead[id].attempts == MAX_RETRY_ATTEMPTS && TriesOf(s, id) == MAX_RETRY_ATTEMPTS)
  }

  /** A pass and the setters' doings after it. */
  datatype Round = Round(ok: EntryId -> bool, after: State)

  ghost predicate ValidRounds(s: State, rounds: seq<Round>)
    decreases |rounds|
  {
    rounds == [] ||
    (SettersMayDo(AfterPass(s, rounds[0].ok), rounds[0].after) && ValidRounds(rounds[0].after, rounds[1..]))
  }

  function EndOf(s: State, rounds: seq<Round>): State {
    if rounds == [] then s else rounds[|rounds| - 1].after
  }

  lemma PassKeepsInv(s: State, ok: EntryId -> bool)
    requires Inv(s)
    ensures Inv(AfterPass(s, ok))
  {
    var s' := AfterPass(s, ok);
    forall id | id in s'.hash && Eligible(s'.hash[id]) ensures TriesOf(s', id) == s'.hash[id].attempts {
      assert Eligible(s.hash[id]) && id in EligibleIds(s.hash);
    }
    forall id | id in s'.tries ensures s'.tries[id] <= MAX_RETRY_ATTEMPTS {
      if id in EligibleIds(s.hash) { assert TriesOf(s, id) == s.hash[id].attempts; }
    }
    forall id | id in s'.dead
      ensures s'.dead[id].attempts == MAX_RETRY_ATTEMPTS && TriesOf(s', id) == MAX_RETRY_ATTEMPTS
    {
      if id in DeadIds(s.hash, ok) {
        assert id in EligibleIds(s.hash) && TriesOf(s, id) == s.hash[id].attempts == 2;
      } else {
        assert TriesOf(s, id) == MAX_RETRY_ATTEMPTS;
        assert id !in EligibleIds(s.hash);
      }
    }
  }

  lemma SettersKeepInv(s: State, after: State)
    requires Inv(s) && SettersMayDo(s, after)
    ensures Inv(after)
  {
  }

  lemma RoundKeepsInv(s: State, ok: EntryId -> bool, after: State)
    requires Inv(s) && SettersMayDo(AfterPass(s, ok), after)
    ensures Inv(after)
  {
    PassKeepsInv(s, ok);
    SettersKeepInv(AfterPass(s, ok), after);
  }

  /** Over every run: stored entries keep attempts at most 2, dead letters carry 3, and no entry ever
      gets more than three Mongo attempts. */
  lemma {:induction false} AttemptsStayBounded(s: State, rounds: seq<Round>)
    requires Inv(s) && ValidRounds(s, rounds)
    ensures Inv(EndOf(s, rounds))
    decreases |rounds|
  {
    if rounds != [] {
      RoundKeepsInv(s, rounds[0].ok, rounds[0].after);
      AttemptsStayBounded(rounds[0].after, rounds[1..]);
    }
  }

  /** Settled: completed by Mongo or in the dead letter list. */
  predicate Settled(s: State, id: EntryId) {
    id in s.done || id in s.dead
  }

  lemma OnePassCostsAnAttempt(s: State, ok: EntryId -> bool, after: State, id: EntryId)
    requires Inv(s) && SettersMayDo(AfterPass(s, ok), after)
    ensures Settled(s, id) ==> Settled(after, id)
    ensures id in EligibleIds(s.hash) ==>
      Settled(after, id) || (id in EligibleIds(after.hash) && after.hash[id].attempts == s.hash[id].attempts + 1)
  {
    var mid := AfterPass(s, ok);
    if id in EligibleIds(s.hash) && !Settled(mid, id) {
      assert id in mid.hash && mid.hash[id] == Attempted(s.hash[id], false);
    }
  }

  /** Each pass an open entry survives costs it one of the attempts it had left. */
  lemma {:induction false} EachPassCostsAnAttempt(s: State, rounds: seq<Round>, id: EntryId)
    requires Inv(s) && ValidRounds(s, rounds)
    ensures Settled(s, id) ==> Settled(EndOf(s, rounds), id)
    ensures id in EligibleIds(s.hash) ==>
      var end := EndOf(s, rounds);
      Settled(end, id) || (id in EligibleIds(end.hash) && end.hash[id].attempts == s.hash[id].attempts + |rounds|)
    decreases |rounds|
  {
    if rounds != [] {
      var next := rounds[0].after;
      RoundKeepsInv(s, rounds[0].ok, next);
      OnePassCostsAnAttempt(s, rounds[0].ok, next, id);
      EachPassCostsAnAttempt(next, rounds[1..], id);
    }
  }

  /** Whatever Mongo answers and whatever setters add meanwhile, three passes settle every entry that
      was waiting at the start. */
  lemma {:induction false} DrainsInThreePasses(s: State, rounds: seq<Round>)
    requires Inv(s) && ValidRounds(s, rounds) && |rounds| == 3
    ensures forall id :: id in EligibleIds(s.hash) ==> Settled(EndOf(s, rounds), id)
  {
    forall id | id in EligibleIds(s.hash) ensures Settled(EndOf(s, rounds), id) {
      AttemptsStayBounded(s, rounds);
      EachPassCostsAnAttempt(s, rounds, id);
    }
  }

  /** Three is exact: a fresh entry that Mongo keeps refusing is still waiting after two passes. */
  lemma TwoPassesAreNotEnough(id: EntryId, patch: AuthPatch)
    ensures var refuse := (x: EntryId) => false;
            var h := map[id := Entry(patch, None, Pending, 0)];
            && id in EligibleIds(Pass(Pass(h, refuse), refuse))
            && Pass(Pass(Pass(h, refuse), refuse), refuse) == map[]
  {
    var refuse := (x: EntryId) => false;
    var h := map[id := Entry(patch, None, Pending, 0)];
    assert Pass(h, refuse) == map[id := Entry(patch, None, Failed, 1)];
    assert Pass(Pass(h, refuse), refuse) == map[id := Entry(patch, None, Failed, 2)];
  }

  /** In one of the rounds a setter, by its direct Mongo write, completes the entry. */
  predicate SetterCompletes(s: State, rounds: seq<Round>, id: EntryId)
    decreases |rounds|
  {
    rounds != [] &&
    (id in rounds[0].after.done - AfterPass(s, rounds[0].ok).done || SetterCompletes(rounds[0].after, rounds[1..], id))
  }

  /** An entry a crash left processing is never collected again: however many passes run, it stays exactly as
      it is, not completed, and a dead letter only if the crash came after the push, unless its own setter
      completes it. */
  lemma {:induction false} ProcessingEntriesAreStuck(s: State, rounds: seq<Round>, id: EntryId)
    requires Inv(s) && ValidRounds(s, rounds)
    requires id in s.hash && s.hash[id].status == Processing && id !in s.done
    ensures var end := EndOf(s, rounds);
            if SetterCompletes(s, rounds, id) then id in end.done
            else && id in end.hash && end.hash[id] == s.hash[id]
                 && id !in end.done && (id in end.dead <==> id in s.dead)
    decreases |rounds|
  {
    if rounds != [] {
      var mid, next := AfterPass(s, rounds[0].ok), rounds[0].after;
      assert id in mid.hash && mid.hash[id] == s.hash[id] && id !in mid.done;
      RoundKeepsInv(s, rounds[0].ok, next);
      if id in next.done {
        DoneStays(next, rounds[1..], id);
      } else {
        ProcessingEntriesAreStuck(next, rounds[1..], id);
      }
    }
  }

  lemma {:induction false} DoneStays(s: State, rounds: seq<Round>, id: EntryId)
    requires ValidRounds(s, rounds) && id in s.done
    ensures id in EndOf(s, rounds).done
    decreases |rounds|
  {
    if rounds != [] {
      DoneStays(rounds[0].after, rounds[1..], id);
    }
  }

  /** What three passes settle, exactly: every stored entry but those left processing, and of these the ones
      that were dead letters already and the ones a setter has completed or completes meanwhile. */
  lemma ThreePassesSettleAllButProcessing(s: State, rounds: seq<Round>, id: EntryId)
    requires Inv(s) && ValidRounds(s, rounds) && |rounds| == 3 && id in s.hash
    ensures Settled(EndOf(s, rounds), id)
       <==> s.hash[id].status != Processing || Settled(s, id) || SetterCompletes(s, rounds, id)
  {
    if s.hash[id].status == Processing && id !in s.done {
      ProcessingEntriesAreStuck(s, rounds, id);
    } else if Eligible(s.hash[id]) {
      DrainsInThreePasses(s, rounds);
    } else {
      DoneStays(s, rounds, id);
    }
  }
}
