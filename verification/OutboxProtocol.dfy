/** Setters, reconcilers, crashes and Redis or Mongo failures interleaved command by command. */
module OutboxProtocol {
  import opened AuthTypes
  import opened Outbox

  /** A patch Mongo accepted for a version. */
  datatype Write = Write(id: EntryId, patch: AuthPatch)

  /** How one Redis or Mongo command ends; `Unacknowledged` took effect although the caller sees an error. */
  datatype CommandResult = Done | NotApplied | Unacknowledged

  /** A set call after its Redis write, and one reconciler worker; each `at` names the command it is about
      to send. A worker holds the copy of the entry that its pass collected. */
  datatype SetterAt = AddEntry | ExpireHash | QueueAdd | DirectWrite | CompleteRead | CompleteWrite(read: Entry)
  datatype WorkerAt =
    | MarkProcessing | MongoWrite | ReadToComplete | WriteCompleted(read: Entry)
    | PushDead | RemoveDead | ReadToFail | WriteFailed(read: Entry)
  datatype Process =
    | Setter(id: EntryId, patch: AuthPatch, fencingToken: Option<int>, at: SetterAt)
    | Worker(id: EntryId, copy: Entry, pc: WorkerAt)
    | Ended

  /** `issued` maps every version a set obtained to its patch (versions are distinct), `acknowledged`
      holds the versions whose set returned, `timers` the pending deletions of completed entries. */
  datatype System = System(
    issued: map<EntryId, AuthPatch>, accepted: set<Write>, hash: Hash, deadLetters: seq<DeadRecord>,
    timers: set<EntryId>, acknowledged: set<EntryId>, processes: seq<Process>)

  datatype Step =
    | Issue(id: EntryId, patch: AuthPatch, fencingToken: Option<int>)
    | Collect(id: EntryId)                    // some reconciler pass picks the entry up
    | Advance(i: nat, result: CommandResult)  // process i sends its next command
    | Kill(i: nat)                            // a crash takes the process away
    | TimerFires(id: EntryId)
    | TimerLost(id: EntryId)

  // ----- single effects -----

  function Put(s: System, id: EntryId, e: Entry): System { s.(hash := s.hash[id := e]) }
  function Remove(s: System, id: EntryId): System { s.(hash := s.hash - {id}) }
  function Accept(s: System, id: EntryId, patch: AuthPatch): System { s.(accepted := s.accepted + {Write(id, patch)}) }
  function Push(s: System, r: DeadRecord): System { s.(deadLetters := [r] + s.deadLetters) }
  function StartTimer(s: System, id: EntryId): System { s.(timers := s.timers + {id}) }
  function Acknowledge(s: System, id: EntryId): System { s.(acknowledged := s.acknowledged + {id}) }
  function Become(s: System, i: nat, p: Process): System
    requires i < |s.processes|
  {
    s.(processes := s.processes[i := p])
  }
  function Spawn(s: System, p: Process): System { s.(processes := s.processes + [p]) }

  function Marked(e: Entry, status: Status): Entry { e.(status := status) }

  // ----- one command of a process -----

  function SetterCommand(s: System, i: nat, p: Process, result: CommandResult): System
    requires i < |s.processes| && p.Setter?
  {
    var fallback := Become(s, i, p.(at := DirectWrite));
    match p.at
    case AddEntry =>
      if p.id in s.hash then (if result.Done? then Become(s, i, p.(at := QueueAdd)) else fallback)
      else
        var added := Put(s, p.id, Entry(p.patch, p.fencingToken, Pending, 0));
        if result.Done? then Become(added, i, p.(at := ExpireHash))
        else if result.NotApplied? then fallback
        else Become(added, i, p.(at := DirectWrite))
    case ExpireHash => if result.Done? then Become(s, i, p.(at := QueueAdd)) else fallback
    case QueueAdd => if result.Done? then Become(Acknowledge(s, p.id), i, Ended) else fallback
    case DirectWrite =>
      var written := Accept(s, p.id, p.patch);
      if result.Done? then Become(written, i, p.(at := CompleteRead))
      else if result.NotApplied? then Become(s, i, Ended)
      else Become(written, i, Ended)
    case CompleteRead =>
      if !result.Done? then Become(s, i, Ended)
      else if p.id !in s.hash then Become(Acknowledge(s, p.id), i, Ended)
      else Become(s, i, p.(at := CompleteWrite(s.hash[p.id])))
    case CompleteWrite(read) =>
      var completed := Put(s, p.id, Marked(read, Completed));
      if result.Done? then Become(StartTimer(Acknowledge(completed, p.id), p.id), i, Ended)
      else if result.NotApplied? then Become(s, i, Ended)
      else Become(completed, i, Ended)
  }

  /** The catch block: give up after the third attempt, else book a failure. */
  function Caught(s: System, i: nat, p: Process): System
    requires i < |s.processes| && p.Worker?
  {
    Become(s, i, p.(pc := if p.copy.attempts >= MAX_RETRY_ATTEMPTS - 1 then PushDead else ReadToFail))
  }

  function WorkerCommand(s: System, i: nat, p: Process, result: CommandResult): System
    requires i < |s.processes| && p.Worker?
  {
    match p.pc
    case MarkProcessing =>
      var marked := Put(s, p.id, Marked(p.copy, Processing));
      if result.Done? then Become(marked, i, p.(pc := MongoWrite))
      else Caught(if result.NotApplied? then s else marked, i, p)
    case MongoWrite =>
      var written := Accept(s, p.id, p.copy.patch);
      if result.Done? then Become(written, i, p.(pc := ReadToComplete))
      else Caught(if result.NotApplied? then s else written, i, p)
    case ReadToComplete =>
      if !result.Done? then Caught(s, i, p)
      else if p.id !in s.hash then Become(s, i, Ended)
      else Become(s, i, p.(pc := WriteCompleted(s.hash[p.id])))
    case WriteCompleted(read) =>
      var completed := Put(s, p.id, Marked(read, Completed));
      if result.Done? then Become(StartTimer(completed, p.id), i, Ended)
      else Caught(if result.NotApplied? then s else completed, i, p)
    case PushDead =>
      var pushed := Push(s, DeadRecordOf(p.id, p.copy));
      if result.Done? then Become(pushed, i, p.(pc := RemoveDead))
      else Become(if result.NotApplied? then s else pushed, i, Ended)
    case RemoveDead =>
      Become(if result.NotApplied? then s else Remove(s, p.id), i, Ended)
    case ReadToFail =>
      if !result.Done? || p.id !in s.hash then Become(s, i, Ended)
      else Become(s, i, p.(pc := WriteFailed(s.hash[p.id])))
    case WriteFailed(read) =>
      var failed := Marked(read, Failed).(attempts := read.attempts + 1);
      Become(if result.NotApplied? then s else Put(s, p.id, failed), i, Ended)
  }

  predicate Legal(s: System, step: Step) {
    match step
    case Issue(id, patch, token) => id !in s.issued && id.session != "dlq"
    case Collect(id) => id in s.hash && Eligible(s.hash[id])
    case Advance(i, result) => i < |s.processes| && !s.processes[i].Ended?
    case Kill(i) => i < |s.processes|
    case TimerFires(id) => id in s.timers
    case TimerLost(id) => id in s.timers
  }

  function Next(s: System, step: Step): System
    requires Legal(s, step)
  {
    match step
    case Issue(id, patch, token) => Spawn(s.(issued := s.issued[id := patch]), Setter(id, patch, token, AddEntry))
    case Collect(id) => Spawn(s, Worker(id, s.hash[id], MarkProcessing))
    case Advance(i, result) =>
      if s.processes[i].Setter? then SetterCommand(s, i, s.processes[i], result)
      else WorkerCommand(s, i, s.processes[i], result)
    case Kill(i) => Become(s, i, Ended)
    case TimerFires(id) => Remove(s, id).(timers := s.timers - {id})
    case TimerLost(id) => s.(timers := s.timers - {id})
  }

  // ----- the invariant -----

  predicate Owns(s: System, id: EntryId, patch: AuthPatch) {
    id in s.issued && s.issued[id] == patch
  }

  predicate InMongo(s: System, id: EntryId) {
    id in s.issued && Write(id, s.issued[id]) in s.accepted
  }

  predicate InDeadLetters(s: System, id: EntryId) {
    && id in s.issued
    && exists i ::
         0 <= i < |s.deadLetters| && s.deadLetters[i].id == id && s.deadLetters[i].patch == s.issued[id]
  }

  predicate Secured(s: System, id: EntryId) {
    InMongo(s, id) || id in s.hash || InDeadLetters(s, id)
  }

  predicate EntryOk(s: System, id: EntryId, e: Entry) {
    Owns(s, id, e.patch) && (e.status == Completed ==> InMongo(s, id))
  }

  predicate ProcessOk(s: System, p: Process) {
    match p
    case Ended => true
    case Setter(id, patch, token, at) =>
      && Owns(s, id, patch)
      && (at.ExpireHash? || at.QueueAdd? ==> Secured(s, id))
      && (at.CompleteRead? || at.CompleteWrite? ==> InMongo(s, id))
      && (at.CompleteWrite? ==> Owns(s, id, at.read.patch))
    case Worker(id, copy, pc) =>
      && Owns(s, id, copy.patch)
      && (pc.ReadToComplete? || pc.WriteCompleted? ==> InMongo(s, id))
      && (pc.RemoveDead? ==> InDeadLetters(s, id))
      && (pc.WriteCompleted? || pc.WriteFailed? ==> Owns(s, id, pc.read.patch))
  }

  predicate Inv(s: System) {
    && (forall id :: id in s.hash ==> EntryOk(s, id, s.hash[id]))
    && (forall id :: id in s.timers ==> InMongo(s, id))
    && (forall id :: id in s.acknowledged ==> Secured(s, id))
    && (forall i :: 0 <= i < |s.processes| ==> ProcessOk(s, s.processes[i]))
  }

  /** Nothing that was safe becomes unsafe: the ways in which `s'` may differ from `s`. */
  ghost predicate Preserves(s: System, s': System) {
    && (forall id :: id in s.issued ==> id in s'.issued && s'.issued[id] == s.issued[id])
    && s.accepted <= s'.accepted
    && (forall id :: InDeadLetters(s, id) ==> InDeadLetters(s', id))
    && (forall id :: Secured(s, id) ==> Secured(s', id))
  }

  lemma ProcessStaysOk(s: System, s': System, p: Process)
    requires Preserves(s, s') && ProcessOk(s, p)
    ensures ProcessOk(s', p)
  {
  }

  lemma PutKeepsInv(s: System, id: EntryId, e: Entry)
    requires Inv(s) && EntryOk(s, id, e)
    ensures Inv(Put(s, id, e)) && Preserves(s, Put(s, id, e)) && Secured(Put(s, id, e), id)
  {
    var s' := Put(s, id, e);
    assert Preserves(s, s');
    forall i | 0 <= i < |s'.processes| ensures ProcessOk(s', s'.processes[i]) { ProcessStaysOk(s, s', s.processes[i]); }
  }

  /** An entry may leave the outbox once Mongo or the dead letter list has its patch. */
  lemma RemoveKeepsInv(s: System, id: EntryId)
    requires Inv(s) && (InMongo(s, id) || InDeadLetters(s, id))
    ensures Inv(Remove(s, id)) && Preserves(s, Remove(s, id))
  {
    var s' := Remove(s, id);
    assert Preserves(s, s');
    forall i | 0 <= i < |s'.processes| ensures ProcessOk(s', s'.processes[i]) { ProcessStaysOk(s, s', s.processes[i]); }
  }

  lemma AcceptKeepsInv(s: System, id: EntryId, patch: AuthPatch)
    requires Inv(s) && Owns(s, id, patch)
    ensures Inv(Accept(s, id, patch)) && Preserves(s, Accept(s, id, patch)) && InMongo(Accept(s, id, patch), id)
  {
    var s' := Accept(s, id, patch);
    assert Preserves(s, s');
    forall i | 0 <= i < |s'.processes| ensures ProcessOk(s', s'.processes[i]) { ProcessStaysOk(s, s', s.processes[i]); }
  }

  lemma PushKeepsInv(s: System, r: DeadRecord)
    requires Inv(s) && Owns(s, r.id, r.patch)
    ensures Inv(Push(s, r)) && Preserves(s, Push(s, r)) && InDeadLetters(Push(s, r), r.id)
  {
    var s' := Push(s, r);
    assert s'.deadLetters[0] == r;
    forall id | InDeadLetters(s, id) ensures InDeadLetters(s', id) {
      var i :| 0 <= i < |s.deadLetters| && s.deadLetters[i].id == id && s.deadLetters[i].patch == s.issued[id];
      assert s'.deadLetters[i + 1] == s.deadLetters[i];
    }
    assert Preserves(s, s');
    forall i | 0 <= i < |s'.processes| ensures ProcessOk(s', s'.processes[i]) { ProcessStaysOk(s, s', s.processes[i]); }
  }

  lemma AcknowledgeKeepsInv(s: System, id: EntryId)
    requires Inv(s) && Secured(s, id)
    ensures Inv(Acknowledge(s, id)) && Preserves(s, Acknowledge(s, id))
  {
    var s' := Acknowledge(s, id);
    assert Preserves(s, s');
    forall i | 0 <= i < |s'.processes| ensures ProcessOk(s', s'.processes[i]) { ProcessStaysOk(s, s', s.processes[i]); }
  }

  lemma TimerKeepsInv(s: System, id: EntryId)
    requires Inv(s) && InMongo(s, id)
    ensures Inv(StartTimer(s, id)) && Preserves(s, StartTimer(s, id))
  {
    var s' := StartTimer(s, id);
    assert Preserves(s, s');
    forall i | 0 <= i < |s'.processes| ensures ProcessOk(s', s'.processes[i]) { ProcessStaysOk(s, s', s.processes[i]); }
  }

  lemma BecomeKeepsInv(s: System, i: nat, p: Process)
    requires Inv(s) && i < |s.processes| && ProcessOk(s, p)
    ensures Inv(Become(s, i, p)) && Preserves(s, Become(s, i, p))
  {
    var s' := Become(s, i, p);
    assert Preserves(s, s');
    forall j | 0 <= j < |s'.processes| ensures ProcessOk(s', s'.processes[j]) {
      ProcessStaysOk(s, s', if j == i then p else s.processes[j]);
    }
  }

  lemma SpawnKeepsInv(s: System, p: Process)
    requires Inv(s) && ProcessOk(s, p)
    ensures Inv(Spawn(s, p))
  {
    var s' := Spawn(s, p);
    assert Preserves(s, s');
    forall j | 0 <= j < |s'.processes| ensures ProcessOk(s', s'.processes[j]) {
      ProcessStaysOk(s, s', if j == |s.processes| then p else s.processes[j]);
    }
  }

  lemma IssueKeepsInv(s: System, id: EntryId, patch: AuthPatch)
    requires Inv(s) && id !in s.issued
    ensures Inv(s.(issued := s.issued[id := patch]))
  {
    var s' := s.(issued := s.issued[id := patch]);
    forall x | InDeadLetters(s, x) ensures InDeadLetters(s', x) {
      var i :| 0 <= i < |s.deadLetters| && s.deadLetters[i].id == x && s.deadLetters[i].patch == s.issued[x];
      assert s'.deadLetters[i].patch == s'.issued[x];
    }
    assert Preserves(s, s');
    forall j | 0 <= j < |s'.processes| ensures ProcessOk(s', s'.processes[j]) { ProcessStaysOk(s, s', s.processes[j]); }
  }

  // ----- every command keeps the invariant -----

  lemma SetterKeepsInv(s: System, i: nat, result: CommandResult)
    requires Inv(s) && i < |s.processes| && s.processes[i].Setter?
    ensures Inv(SetterCommand(s, i, s.processes[i], result))
  {
    var p := s.processes[i];
    assert ProcessOk(s, p);
    BecomeKeepsInv(s, i, Ended);
    BecomeKeepsInv(s, i, p.(at := DirectWrite));
    match p.at {
      case AddEntry =>
        if p.id in s.hash {
          BecomeKeepsInv(s, i, p.(at := QueueAdd));
        } else {
          var e := Entry(p.patch, p.fencingToken, Pending, 0);
          PutKeepsInv(s, p.id, e);
          BecomeKeepsInv(Put(s, p.id, e), i, p.(at := if result.Done? then ExpireHash else DirectWrite));
        }
      case ExpireHash => BecomeKeepsInv(s, i, p.(at := QueueAdd));
      case QueueAdd =>
        AcknowledgeKeepsInv(s, p.id);
        BecomeKeepsInv(Acknowledge(s, p.id), i, Ended);
      case DirectWrite =>
        AcceptKeepsInv(s, p.id, p.patch);
        BecomeKeepsInv(Accept(s, p.id, p.patch), i, if result.Done? then p.(at := CompleteRead) else Ended);
      case CompleteRead =>
        AcknowledgeKeepsInv(s, p.id);
        BecomeKeepsInv(Acknowledge(s, p.id), i, Ended);
        if p.id in s.hash {
          assert EntryOk(s, p.id, s.hash[p.id]);
          BecomeKeepsInv(s, i, p.(at := CompleteWrite(s.hash[p.id])));
        }
      case CompleteWrite(read) =>
        var s1 := Put(s, p.id, Marked(read, Completed));
        PutKeepsInv(s, p.id, Marked(read, Completed));
        BecomeKeepsInv(s1, i, Ended);
        AcknowledgeKeepsInv(s1, p.id);
        TimerKeepsInv(Acknowledge(s1, p.id), p.id);
        BecomeKeepsInv(StartTimer(Acknowledge(s1, p.id), p.id), i, Ended);
    }
  }

  lemma CaughtKeepsInv(s: System, i: nat, p: Process)
    requires Inv(s) && i < |s.processes| && p.Worker? && Owns(s, p.id, p.copy.patch)
    ensures Inv(Caught(s, i, p))
  {
    BecomeKeepsInv(s, i, p.(pc := if p.copy.attempts >= MAX_RETRY_ATTEMPTS - 1 then PushDead else ReadToFail));
  }

  predicate TriesMongo(pc: WorkerAt) {
    pc.MarkProcessing? || pc.MongoWrite? || pc.ReadToComplete? || pc.WriteCompleted?
  }

  lemma WritingWorkerKeepsInv(s: System, i: nat, result: CommandResult)
    requires Inv(s) && i < |s.processes| && s.processes[i].Worker? && TriesMongo(s.processes[i].pc)
    ensures Inv(WorkerCommand(s, i, s.processes[i], result))
  {
    var p := s.processes[i];
    assert ProcessOk(s, p);
    CaughtKeepsInv(s, i, p);
    match p.pc
    case MarkProcessing =>
      var e := Marked(p.copy, Processing);
      PutKeepsInv(s, p.id, e);
      CaughtKeepsInv(Put(s, p.id, e), i, p);
      BecomeKeepsInv(Put(s, p.id, e), i, p.(pc := MongoWrite));
    case MongoWrite =>
      AcceptKeepsInv(s, p.id, p.copy.patch);
      var s1 := Accept(s, p.id, p.copy.patch);
      CaughtKeepsInv(s1, i, p);
      BecomeKeepsInv(s1, i, p.(pc := ReadToComplete));
    case ReadToComplete =>
      if p.id in s.hash { assert EntryOk(s, p.id, s.hash[p.id]); }
      BecomeKeepsInv(s, i, if p.id in s.hash then p.(pc := WriteCompleted(s.hash[p.id])) else Ended);
    case WriteCompleted(read) =>
      var s1 := Put(s, p.id, Marked(read, Completed));
      PutKeepsInv(s, p.id, Marked(read, Completed));
      CaughtKeepsInv(s1, i, p);
      TimerKeepsInv(s1, p.id);
      BecomeKeepsInv(StartTimer(s1, p.id), i, Ended);
  }

  lemma RemovingWorkerKeepsInv(s: System, i: nat, result: CommandResult)
    requires Inv(s) && i < |s.processes| && s.processes[i].Worker? && s.processes[i].pc.RemoveDead?
    ensures Inv(WorkerCommand(s, i, s.processes[i], result))
  {
    var p := s.processes[i];
    assert ProcessOk(s, p);
    if result.NotApplied? {
      BecomeKeepsInv(s, i, Ended);
    } else {
      RemoveKeepsInv(s, p.id);
      BecomeKeepsInv(Remove(s, p.id), i, Ended);
    }
  }

  lemma DeadWorkerKeepsInv(s: System, i: nat, result: CommandResult)
    requires Inv(s) && i < |s.processes| && s.processes[i].Worker? && s.processes[i].pc.PushDead?
    ensures Inv(WorkerCommand(s, i, s.processes[i], result))
  {
    var p := s.processes[i];
    assert ProcessOk(s, p);
    var r := DeadRecordOf(p.id, p.copy);
    PushKeepsInv(s, r);
    if result.NotApplied? {
      BecomeKeepsInv(s, i, Ended);
    } else {
      BecomeKeepsInv(Push(s, r), i, if result.Done? then p.(pc := RemoveDead) else Ended);
    }
  }

  lemma FailingWorkerKeepsInv(s: System, i: nat, result: CommandResult)
    requires Inv(s) && i < |s.processes| && s.processes[i].Worker?
    requires s.processes[i].pc.ReadToFail? || s.processes[i].pc.WriteFailed?
    ensures Inv(WorkerCommand(s, i, s.processes[i], result))
  {
    var p := s.processes[i];
    assert ProcessOk(s, p);
    BecomeKeepsInv(s, i, Ended);
    match p.pc
    case ReadToFail =>
      if p.id in s.hash {
        assert EntryOk(s, p.id, s.hash[p.id]);
        BecomeKeepsInv(s, i, p.(pc := WriteFailed(s.hash[p.id])));
      }
    case WriteFailed(read) =>
      var e := Marked(read, Failed).(attempts := read.attempts + 1);
      PutKeepsInv(s, p.id, e);
      BecomeKeepsInv(Put(s, p.id, e), i, Ended);
  }

  lemma StepKeepsInv(s: System, step: Step)
    requires Inv(s) && Legal(s, step)
    ensures Inv(Next(s, step))
  {
    match step
    case Issue(id, patch, token) =>
      IssueKeepsInv(s, id, patch);
      SpawnKeepsInv(s.(issued := s.issued[id := patch]), Setter(id, patch, token, AddEntry));
    case Collect(id) =>
      assert EntryOk(s, id, s.hash[id]);
      SpawnKeepsInv(s, Worker(id, s.hash[id], MarkProcessing));
    case Advance(i, result) =>
      if s.processes[i].Setter? {
        SetterKeepsInv(s, i, result);
      } else if TriesMongo(s.processes[i].pc) {
        WritingWorkerKeepsInv(s, i, result);
      } else if s.processes[i].pc.PushDead? {
        DeadWorkerKeepsInv(s, i, result);
      } else if s.processes[i].pc.RemoveDead? {
        RemovingWorkerKeepsInv(s, i, result);
      } else {
        FailingWorkerKeepsInv(s, i, result);
      }
    case Kill(i) => BecomeKeepsInv(s, i, Ended);
    case TimerFires(id) =>
      RemoveKeepsInv(s, id);
      TimerLeavesInv(Remove(s, id), id);
    case TimerLost(id) => TimerLeavesInv(s, id);
  }

  lemma TimerLeavesInv(s: System, id: EntryId)
    requires Inv(s)
    ensures Inv(s.(timers := s.timers - {id}))
  {
    var s' := s.(timers := s.timers - {id});
    assert Preserves(s, s');
    forall j | 0 <= j < |s'.processes| ensures ProcessOk(s', s'.processes[j]) { ProcessStaysOk(s, s', s.processes[j]); }
  }

  // ----- runs -----

  predicate LegalRun(s: System, steps: seq<Step>)
    decreases |steps|
  {
    steps == [] || (Legal(s, steps[0]) && LegalRun(Next(s, steps[0]), steps[1..]))
  }

  function Run(s: System, steps: seq<Step>): System
    requires LegalRun(s, steps)
    decreases |steps|
  {
    if steps == [] then s else Run(Next(s, steps[0]), steps[1..])
  }

  const START := System(map[], {}, map[], [], {}, {}, [])

  lemma {:induction false} RunKeepsInv(s: System, steps: seq<Step>)
    requires Inv(s) && LegalRun(s, steps)
    ensures Inv(Run(s, steps))
    decreases |steps|
  {
    if steps != [] {
      StepKeepsInv(s, steps[0]);
      RunKeepsInv(Next(s, steps[0]), steps[1..]);
    }
  }

  /** No acknowledged write is lost: under every interleaving of setters, workers of any number of
      overlapping reconcilers, crashes and command failures, a version whose set returned has its patch
      in Mongo, or open in the outbox, or in the dead letter list. */
  lemma NoAcknowledgedWriteIsLost(steps: seq<Step>, id: EntryId)
    requires LegalRun(START, steps) && id in Run(START, steps).acknowledged
    ensures var s := Run(START, steps);
            || InMongo(s, id)
            || (id in s.hash && s.hash[id].status != Completed && Owns(s, id, s.hash[id].patch))
            || InDeadLetters(s, id)
  {
    RunKeepsInv(START, steps);
    var s := Run(START, steps);
    assert id in s.hash ==> EntryOk(s, id, s.hash[id]);
  }

  /** `completed` is never a guess: Mongo accepted the very patch the version was issued for. */
  lemma CompletedMeansWritten(steps: seq<Step>, id: EntryId)
    requires LegalRun(START, steps) && id in Run(START, steps).hash && Run(START, steps).hash[id].status == Completed
    ensures var s := Run(START, steps); Owns(s, id, s.hash[id].patch) && InMongo(s, id)
  {
    RunKeepsInv(START, steps);
    var s := Run(START, steps);
    assert EntryOk(s, id, s.hash[id]);
  }

  // ----- entries left processing -----

  /** An entry somebody marked processing, with nobody left to work on it and no deletion pending. */
  predicate Abandoned(s: System, id: EntryId) {
    && id in s.hash && s.hash[id].status == Processing && id !in s.timers
    && NobodyWorksOn(s, id)
  }

  predicate Foreign(p: Process, id: EntryId) {
    p.Ended? || p.id != id
  }

  predicate NobodyWorksOn(s: System, id: EntryId) {
    forall i :: 0 <= i < |s.processes| ==> Foreign(s.processes[i], id)
  }

  /** Nothing stored or known about an id has changed. */
  predicate Untouched(s: System, s': System, id: EntryId) {
    && (id in s.hash <==> id in s'.hash) && (id in s.hash ==> s'.hash[id] == s.hash[id])
    && (id in s'.timers <==> id in s.timers)
    && (forall w :: w in s'.accepted && w.id == id ==> w in s.accepted)
    && (forall r :: r in s'.deadLetters && r.id == id ==> r in s.deadLetters)
    && (id in s.issued ==> id in s'.issued && s'.issued[id] == s.issued[id])
  }

  /** A command works on the entry of its own process, and the process stays with that entry. */
  lemma SettersKeepToTheirEntry(s: System, i: nat, result: CommandResult, id: EntryId)
    requires i < |s.processes| && s.processes[i].Setter? && s.processes[i].id != id
    ensures Untouched(s, SetterCommand(s, i, s.processes[i], result), id)
  {
    if Queues(s.processes[i].at) {
      QueuersKeepToTheirEntry(s, i, result, id);
    } else {
      DirectSettersKeepToTheirEntry(s, i, result, id);
    }
  }

  predicate Queues(at: SetterAt) {
    at.AddEntry? || at.ExpireHash? || at.QueueAdd?
  }

  lemma QueuersKeepToTheirEntry(s: System, i: nat, result: CommandResult, id: EntryId)
    requires i < |s.processes| && s.processes[i].Setter? && s.processes[i].id != id && Queues(s.processes[i].at)
    ensures Untouched(s, SetterCommand(s, i, s.processes[i], result), id)
  {
  }

  lemma DirectSettersKeepToTheirEntry(s: System, i: nat, result: CommandResult, id: EntryId)
    requires i < |s.processes| && s.processes[i].Setter? && s.processes[i].id != id && !Queues(s.processes[i].at)
    ensures Untouched(s, SetterCommand(s, i, s.processes[i], result), id)
  {
  }

  lemma SettersStay(s: System, i: nat, result: CommandResult, id: EntryId)
    requires i < |s.processes| && s.processes[i].Setter? && NobodyWorksOn(s, id)
    ensures NobodyWorksOn(SetterCommand(s, i, s.processes[i], result), id)
  {
  }

  lemma WorkersKeepToTheirEntry(s: System, i: nat, result: CommandResult, id: EntryId)
    requires i < |s.processes| && s.processes[i].Worker? && s.processes[i].id != id
    ensures Untouched(s, WorkerCommand(s, i, s.processes[i], result), id)
  {
    if TriesMongo(s.processes[i].pc) {
      WritersKeepToTheirEntry(s, i, result, id);
    } else {
      CatchersKeepToTheirEntry(s, i, result, id);
    }
  }

  lemma WritersKeepToTheirEntry(s: System, i: nat, result: CommandResult, id: EntryId)
    requires i < |s.processes| && s.processes[i].Worker? && s.processes[i].id != id && TriesMongo(s.processes[i].pc)
    ensures Untouched(s, WorkerCommand(s, i, s.processes[i], result), id)
  {
  }

  lemma CatchersKeepToTheirEntry(s: System, i: nat, result: CommandResult, id: EntryId)
    requires i < |s.processes| && s.processes[i].Worker? && s.processes[i].id != id && !TriesMongo(s.processes[i].pc)
    ensures Untouched(s, WorkerCommand(s, i, s.processes[i], result), id)
  {
  }

  lemma WorkersStay(s: System, i: nat, result: CommandResult, id: EntryId)
    requires i < |s.processes| && s.processes[i].Worker? && NobodyWorksOn(s, id)
    ensures NobodyWorksOn(WorkerCommand(s, i, s.processes[i], result), id)
  {
  }

  lemma StepLeavesAbandoned(s: System, step: Step, id: EntryId)
    requires Inv(s) && Abandoned(s, id) && Legal(s, step)
    ensures Abandoned(Next(s, step), id) && Untouched(s, Next(s, step), id)
  {
    assert EntryOk(s, id, s.hash[id]);
    if step.Advance? {
      hide SetterCommand;
      hide WorkerCommand;
      assert Foreign(s.processes[step.i], id);
      if s.processes[step.i].Setter? {
        SettersKeepToTheirEntry(s, step.i, step.result, id);
        SettersStay(s, step.i, step.result, id);
      } else {
        WorkersKeepToTheirEntry(s, step.i, step.result, id);
        WorkersStay(s, step.i, step.result, id);
      }
    }
  }

  /** Abandoned for good: through every further run the entry keeps its exact value, and its patch reaches
      neither Mongo nor the dead letter list. */
  lemma {:induction false} AbandonedEntriesStay(s: System, steps: seq<Step>, id: EntryId)
    requires Inv(s) && Abandoned(s, id) && LegalRun(s, steps)
    ensures var end := Run(s, steps);
            && Abandoned(end, id) && end.hash[id] == s.hash[id]
            && (InMongo(end, id) ==> InMongo(s, id)) && (InDeadLetters(end, id) ==> InDeadLetters(s, id))
    decreases |steps|
  {
    assert EntryOk(s, id, s.hash[id]);
    if steps != [] {
      StepKeepsInv(s, steps[0]);
      StepLeavesAbandoned(s, steps[0], id);
      AbandonedEntriesStay(Next(s, steps[0]), steps[1..], id);
    }
  }

  lemma OneMore(s: System, step: Step, rest: seq<Step>)
    requires Legal(s, step) && LegalRun(Next(s, step), rest)
    ensures LegalRun(s, [step] + rest) && Run(s, [step] + rest) == Run(Next(s, step), rest)
  {
    assert ([step] + rest)[1..] == rest;
  }

  /** A queued set, acknowledged. */
  function QueuedSet(id: EntryId, patch: AuthPatch, token: Option<int>): seq<Step> {
    [Issue(id, patch, token), Advance(0, Done), Advance(0, Done), Advance(0, Done)]
  }

  /** A worker that marks the entry and dies. */
  function CrashAfterMarking(id: EntryId): seq<Step> {
    [Collect(id), Advance(1, Done), Kill(1)]
  }

  function AfterQueuedSet(id: EntryId, patch: AuthPatch, token: Option<int>): System {
    System(map[id := patch], {}, map[id := Entry(patch, token, Pending, 0)], [], {}, {id}, [Ended])
  }

  function AfterCrash(id: EntryId, patch: AuthPatch, token: Option<int>): System {
    AfterQueuedSet(id, patch, token).(
      hash := map[id := Entry(patch, token, Processing, 0)], processes := [Ended, Ended])
  }

  lemma QueuedSetRuns(id: EntryId, patch: AuthPatch, token: Option<int>)
    requires id.session != "dlq"
    ensures LegalRun(START, QueuedSet(id, patch, token))
    ensures Run(START, QueuedSet(id, patch, token)) == AfterQueuedSet(id, patch, token)
  {
    var step := Advance(0, Done);
    var s1 := Next(START, Issue(id, patch, token));
    assert s1.processes == [Setter(id, patch, token, AddEntry)];
    var s2 := Next(s1, step);
    assert s2.processes == [Setter(id, patch, token, ExpireHash)];
    var s3 := Next(s2, step);
    assert s3.processes == [Setter(id, patch, token, QueueAdd)];
    OneMore(s3, step, []);
    OneMore(s2, step, [step]);
    OneMore(s1, step, [step, step]);
  }

  lemma CrashRuns(id: EntryId, patch: AuthPatch, token: Option<int>)
    ensures LegalRun(AfterQueuedSet(id, patch, token), CrashAfterMarking(id))
    ensures Run(AfterQueuedSet(id, patch, token), CrashAfterMarking(id)) == AfterCrash(id, patch, token)
  {
    var s := AfterQueuedSet(id, patch, token);
    var s1 := Next(s, Collect(id));
    assert s1.processes == [Ended, Worker(id, s.hash[id], MarkProcessing)];
    var s2 := Next(s1, Advance(1, Done));
    OneMore(s2, Kill(1), []);
    OneMore(s1, Advance(1, Done), [Kill(1)]);
  }

  lemma {:induction false} RunsCompose(s: System, a: seq<Step>, b: seq<Step>)
    requires LegalRun(s, a) && LegalRun(Run(s, a), b)
    ensures LegalRun(s, a + b) && Run(s, a + b) == Run(Run(s, a), b)
    decreases |a|
  {
    if a == [] {
      assert a + b == b;
    } else {
      RunsCompose(Next(s, a[0]), a[1..], b);
      assert a + b == [a[0]] + (a[1..] + b);
      OneMore(s, a[0], a[1..] + b);
    }
  }

  /** It happens: any version may be acknowledged, marked and abandoned by a crash; from then on no run ever
      writes its patch to Mongo or to the dead letter list. */
  lemma CrashStrandsAnAcknowledgedWrite(id: EntryId, patch: AuthPatch, token: Option<int>, later: seq<Step>)
    requires id.session != "dlq" && LegalRun(AfterCrash(id, patch, token), later)
    ensures var steps := QueuedSet(id, patch, token) + CrashAfterMarking(id) + later;
            && LegalRun(START, steps)
            && var end := Run(START, steps);
            && end.hash.Keys >= {id} && end.hash[id] == Entry(patch, token, Processing, 0)
            && !InMongo(end, id) && !InDeadLetters(end, id)
    ensures id in AfterCrash(id, patch, token).acknowledged
  {
    var before := QueuedSet(id, patch, token) + CrashAfterMarking(id);
    QueuedSetRuns(id, patch, token);
    CrashRuns(id, patch, token);
    RunsCompose(START, QueuedSet(id, patch, token), CrashAfterMarking(id));
    RunsCompose(START, before, later);
    RunKeepsInv(START, before);
    AbandonedEntriesStay(AfterCrash(id, patch, token), later, id);
  }
}
