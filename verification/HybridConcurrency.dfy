/** Concurrent set calls on one session: the per-session mutex around a Redis read and a Redis write. */
module HybridConcurrency {
  import opened AuthTypes
  import opened RedisStore

  /** Where a set call is. It holds its mutex from Locked to Persisting, which covers the Mongo part. */
  datatype CallAt = Waiting | Locked | HasRead(current: Option<StoredKeys>) | Persisting | Over

  /** `mutex` is the one filed for the session when the call was made; the call keeps it. */
  datatype Call = Call(patch: AuthPatch, expected: Option<int>, mutex: nat, at: CallAt, wrote: bool)

  /** `filed` is the session's mutex in the cache, `mutexes` how many were ever made, `acquired` the calls
      in lock order. */
  datatype System = System(redis: View, filed: Option<nat>, mutexes: nat, calls: seq<Call>, acquired: seq<nat>)

  datatype Step =
    | Arrive(patch: AuthPatch, expected: Option<int>)
    | Acquire(i: nat)
    | ReadKeys(i: nat)
    | WriteRedis(i: nat, ok: bool) // a failed pipeline ends the call
    | Finish(i: nat)               // the Mongo or outbox part is over, well or badly
    | EvictMutex                   // the cache of mutexes drops this session's

  function Begin(start: View): System {
    System(start, None, 0, [], [])
  }

  predicate Inside(c: Call) {
    c.at.Locked? || c.at.HasRead?
  }

  predicate Holds(c: Call) {
    Inside(c) || c.at.Persisting?
  }

  /** Its Redis write is still to come. */
  predicate Unwritten(c: Call) {
    c.at.Waiting? || Inside(c)
  }

  predicate IsFree(s: System, mutex: nat) {
    forall j :: 0 <= j < |s.calls| && s.calls[j].mutex == mutex ==> !Holds(s.calls[j])
  }

  predicate Enabled(s: System, step: Step) {
    match step
    case Arrive(_, _) => true
    case Acquire(i) => i < |s.calls| && s.calls[i].at.Waiting? && IsFree(s, s.calls[i].mutex)
    case ReadKeys(i) => i < |s.calls| && s.calls[i].at.Locked? && TouchesKeys(s.calls[i].patch)
    case WriteRedis(i, _) =>
      i < |s.calls| && (s.calls[i].at.HasRead? || (s.calls[i].at.Locked? && !TouchesKeys(s.calls[i].patch)))
    case Finish(i) => i < |s.calls| && s.calls[i].at.Persisting?
    case EvictMutex => true
  }

  function Next(s: System, step: Step): System
    requires Enabled(s, step)
  {
    match step
    case Arrive(patch, expected) =>
      var mutex := GetOr(s.filed, s.mutexes);
      s.(filed := Some(mutex), mutexes := if s.filed.Some? then s.mutexes else s.mutexes + 1,
         calls := s.calls + [Call(patch, expected, mutex, Waiting, false)])
    case Acquire(i) => s.(calls := s.calls[i := s.calls[i].(at := Locked)], acquired := s.acquired + [i])
    case ReadKeys(i) => s.(calls := s.calls[i := s.calls[i].(at := HasRead(s.redis.keys))])
    case WriteRedis(i, ok) =>
      var c := s.calls[i];
      if !ok then s.(calls := s.calls[i := c.(at := Over)])
      else s.(redis := WriteView(s.redis, if c.at.HasRead? then c.at.current else None, c.patch, c.expected),
              calls := s.calls[i := c.(at := Persisting, wrote := true)])
    case Finish(i) => s.(calls := s.calls[i := s.calls[i].(at := Over)])
    case EvictMutex => s.(filed := None)
  }

  // ----- the serial meaning -----

  /** Redis after the calls that wrote, one whole set after the other in the given order. */
  function Serial(start: View, calls: seq<Call>, order: seq<nat>): View
    requires forall k :: 0 <= k < |order| ==> order[k] < |calls|
    decreases |order|
  {
    if order == [] then start
    else
      var before := Serial(start, calls, order[..|order| - 1]);
      var c := calls[order[|order| - 1]];
      if c.wrote then ViewSet(before, c.patch, c.expected) else before
  }

  /** The last thing said about one id: the newest call that names it decides, null meaning deleted, and an
      id nobody named is as it was. */
  function LastSaid(start: Option<Value>, calls: seq<Call>, order: seq<nat>, t: string, id: string): Option<Value>
    requires forall k :: 0 <= k < |order| ==> order[k] < |calls|
    decreases |order|
  {
    if order == [] then start
    else
      var c := calls[order[|order| - 1]];
      var said := Lookup(GetOr(c.patch.keys, map[]), t, id);
      if c.wrote && said.Some? then (if said.value == Null then None else said)
      else LastSaid(start, calls, order[..|order| - 1], t, id)
  }

  function TableOf(v: View): KeyTable {
    if v.keys.Some? then v.keys.value.keys else map[]
  }

  /** Merging in lock order is last-writer-wins per key type and id. */
  lemma {:induction false} SerialIsLastWriterWins(start: View, calls: seq<Call>, order: seq<nat>, t: string, id: string)
    requires forall k :: 0 <= k < |order| ==> order[k] < |calls|
    ensures Lookup(TableOf(Serial(start, calls, order)), t, id)
         == LastSaid(Lookup(TableOf(start), t, id), calls, order, t, id)
    decreases |order|
  {
    if order != [] {
      var n := |order| - 1;
      SerialIsLastWriterWins(start, calls, order[..n], t, id);
      var before := Serial(start, calls, order[..n]);
      MergeLooksUp(TableOf(before), GetOr(calls[order[n]].patch.keys, map[]), t, id);
      hide MergeKeys;
    }
  }

  // ----- the invariant -----

  predicate CallOk(s: System, i: nat)
    requires i < |s.calls|
  {
    var c := s.calls[i];
    && c.mutex < s.mutexes
    && (Unwritten(c) && s.filed.Some? ==> c.mutex == s.filed.value)
    && (c.at.Waiting? <==> i !in s.acquired)
    && (Inside(c) ==> s.acquired != [] && s.acquired[|s.acquired| - 1] == i && i !in s.acquired[..|s.acquired| - 1])
    && (c.at.HasRead? ==> c.at.current == s.redis.keys)
    && (c.wrote ==> c.at.Persisting? || c.at.Over?)
  }

  /** Calls that are yet to write share a mutex, and a mutex has one holder. */
  predicate PairOk(s: System, i: nat, j: nat)
    requires i < |s.calls| && j < |s.calls|
  {
    && (Unwritten(s.calls[i]) && Unwritten(s.calls[j]) ==> s.calls[i].mutex == s.calls[j].mutex)
    && (Holds(s.calls[i]) && Holds(s.calls[j]) && s.calls[i].mutex == s.calls[j].mutex ==> i == j)
  }

  predicate Inv(s: System, start: View) {
    && (s.filed.Some? ==> s.filed.value < s.mutexes)
    && (forall k :: 0 <= k < |s.acquired| ==> s.acquired[k] < |s.calls|)
    && (forall i :: 0 <= i < |s.calls| ==> CallOk(s, i))
    && (forall i, j :: 0 <= i < |s.calls| && 0 <= j < |s.calls| ==> PairOk(s, i, j))
    && s.redis == Serial(start, s.calls, s.acquired)
  }

  /** Calls that are not in the order, and their progress, do not matter to it. */
  lemma {:induction false} SerialIgnoresOthers(start: View, calls: seq<Call>, changed: seq<Call>, order: seq<nat>)
    requires forall k :: 0 <= k < |order| ==>
      order[k] < |calls| && order[k] < |changed|
      && calls[order[k]].patch == changed[order[k]].patch
      && calls[order[k]].expected == changed[order[k]].expected
      && calls[order[k]].wrote == changed[order[k]].wrote
    ensures Serial(start, calls, order) == Serial(start, changed, order)
    decreases |order|
  {
    if order != [] {
      SerialIgnoresOthers(start, calls, changed, order[..|order| - 1]);
    }
  }

  lemma WriteKeepsInv(s: System, start: View, i: nat)
    requires Inv(s, start) && Enabled(s, WriteRedis(i, true))
    ensures Inv(Next(s, WriteRedis(i, true)), start)
  {
    hide MergeKeys;
    var c := s.calls[i];
    assert CallOk(s, i);
    var s' := Next(s, WriteRedis(i, true));
    assert s'.redis == ViewSet(s.redis, c.patch, c.expected);
    hide ViewSet;
    hide WriteView;
    SerialIgnoresOthers(start, s.calls, s'.calls, s.acquired[..|s.acquired| - 1]);
    assert s'.redis == Serial(start, s'.calls, s'.acquired);
    hide Serial;
    forall j | 0 <= j < |s'.calls| ensures CallOk(s', j) {
      assert CallOk(s, j) && PairOk(s, i, j);
    }
    forall j, k | 0 <= j < |s'.calls| && 0 <= k < |s'.calls| ensures PairOk(s', j, k) {
      assert PairOk(s, j, k);
    }
  }

  lemma AcquireKeepsInv(s: System, start: View, i: nat)
    requires Inv(s, start) && Enabled(s, Acquire(i))
    ensures Inv(Next(s, Acquire(i)), start)
  {
    hide ViewSet;
    var s' := Next(s, Acquire(i));
    assert CallOk(s, i);
    assert s'.acquired[..|s.acquired|] == s.acquired;
    SerialIgnoresOthers(start, s.calls, s'.calls, s.acquired);
    assert s'.redis == Serial(start, s'.calls, s'.acquired);
    hide Serial;
    forall j | 0 <= j < |s'.calls| ensures CallOk(s', j) {
      assert CallOk(s, j) && PairOk(s, i, j);
    }
    forall j, k | 0 <= j < |s'.calls| && 0 <= k < |s'.calls| ensures PairOk(s', j, k) {
      assert PairOk(s, j, k);
    }
  }

  /** The steps that leave Redis and the order alone. */
  lemma OtherStepKeepsInv(s: System, start: View, step: Step)
    requires Inv(s, start) && Legal(s, step)
    requires !step.Acquire? && (step.WriteRedis? ==> !step.ok)
    ensures Inv(Next(s, step), start)
  {
    hide ViewSet;
    hide WriteView;
    hide Serial;
    var s' := Next(s, step);
    SerialIgnoresOthers(start, s.calls, s'.calls, s.acquired);
    forall j | 0 <= j < |s'.calls| ensures CallOk(s', j) {
      assert j < |s.calls| ==> CallOk(s, j);
    }
    forall j, k | 0 <= j < |s'.calls| && 0 <= k < |s'.calls| ensures PairOk(s', j, k) {
      if j < |s.calls| { assert CallOk(s, j); }
      if k < |s.calls| { assert CallOk(s, k); }
      assert j < |s.calls| && k < |s.calls| ==> PairOk(s, j, k);
    }
  }

  lemma StepKeepsInv(s: System, start: View, step: Step)
    requires Inv(s, start) && Legal(s, step)
    ensures Inv(Next(s, step), start)
  {
    hide Inv;
    hide Next;
    match step
    case WriteRedis(i, true) => WriteKeepsInv(s, start, i);
    case Acquire(i) => AcquireKeepsInv(s, start, i);
    case _ => OtherStepKeepsInv(s, start, step);
  }

  // ----- runs -----

  /** A call fits in if it gets the filed mutex, or a new one when no other call is yet to write. */
  predicate Fits(s: System) {
    s.filed.Some? || forall i :: 0 <= i < |s.calls| ==> !Unwritten(s.calls[i])
  }

  predicate Legal(s: System, step: Step) {
    Enabled(s, step) && (step.Arrive? ==> Fits(s))
  }

  predicate LegalRun(s: System, steps: seq<Step>)
    decreases |steps|
  {
    steps == [] || (Legal(s, steps[0]) && LegalRun(Next(s, steps[0]), steps[1..]))
  }

  function Run(s: System, steps: seq<Step>): System
    requires LegalRun(s, steps)
    decreases |steps|
  {
    if steps == [] then s else Run(Next(s, steps[0]), steps[1..])
  }

  lemma {:induction false} RunKeepsInv(s: System, start: View, steps: seq<Step>)
    requires Inv(s, start) && LegalRun(s, steps)
    ensures Inv(Run(s, steps), start)
    decreases |steps|
  {
    if steps != [] {
      StepKeepsInv(s, start, steps[0]);
      RunKeepsInv(Next(s, steps[0]), start, steps[1..]);
    }
  }

  /** Redis is as if the calls had run one after the other in lock order. */
  predicate Serialised(s: System, start: View) {
    && (forall k :: 0 <= k < |s.acquired| ==> s.acquired[k] < |s.calls|)
    && s.redis == Serial(start, s.calls, s.acquired)
  }

  /** Concurrent sets are serialisable: as long as every new call fits in, whenever mutexes are evicted, every
      interleaving leaves Redis as the calls' sets one after the other in lock order, and every id as the
      last call that named it said. */
  lemma ConcurrentSetsAreSerialisable(start: View, steps: seq<Step>, t: string, id: string)
    requires LegalRun(Begin(start), steps)
    ensures var s := Run(Begin(start), steps);
            && Serialised(s, start)
            && Lookup(TableOf(s.redis), t, id) == LastSaid(Lookup(TableOf(start), t, id), s.calls, s.acquired, t, id)
            && (forall i :: 0 <= i < |s.calls| && s.calls[i].wrote ==> i in s.acquired)
  {
    RunKeepsInv(Begin(start), start, steps);
    var s := Run(Begin(start), steps);
    SerialIsLastWriterWins(start, s.calls, s.acquired, t, id);
    forall i | 0 <= i < |s.calls| && s.calls[i].wrote ensures i in s.acquired {
      assert CallOk(s, i);
    }
  }

  // ----- what an unfit arrival can do -----

  ghost predicate CanBreak(s: System, start: View) {
    exists rest :: LegalRun(s, rest) && !Serialised(Run(s, rest), start)
  }

  lemma CanBreakNow(s: System, start: View)
    requires !Serialised(s, start)
    ensures CanBreak(s, start)
  {
    assert LegalRun(s, []) && Run(s, []) == s;
  }

  lemma CanBreakAfter(s: System, step: Step, start: View)
    requires Legal(s, step) && CanBreak(Next(s, step), start)
    ensures CanBreak(s, start)
  {
    var rest :| LegalRun(Next(s, step), rest) && !Serialised(Run(Next(s, step), rest), start);
    assert ([step] + rest)[1..] == rest;
    assert LegalRun(s, [step] + rest) && Run(s, [step] + rest) == Run(Next(s, step), rest);
  }

  /** The second caller, last in lock order, has written; the first writes after it. */
  lemma LateWriteBreaks(s: System, start: View, u: nat, j: nat)
    requires u != j && u < |s.calls| && j < |s.calls| && Inside(s.calls[u]) && s.calls[j].wrote
    requires s.acquired != [] && s.acquired[|s.acquired| - 1] == j
    requires NextVersion(s.calls[u].expected) != NextVersion(s.calls[j].expected)
    ensures CanBreak(s, start)
    decreases s.calls[u].at.Locked?
  {
    hide MergeKeys;
    if Enabled(s, WriteRedis(u, true)) {
      CanBreakNow(Next(s, WriteRedis(u, true)), start);
      CanBreakAfter(s, WriteRedis(u, true), start);
    } else {
      LateWriteBreaks(Next(s, ReadKeys(u)), start, u, j);
      CanBreakAfter(s, ReadKeys(u), start);
    }
  }

  lemma SecondCallerBreaks(s: System, start: View, u: nat, j: nat)
    requires u != j && u < |s.calls| && j < |s.calls| && Inside(s.calls[u])
    requires Enabled(s, Acquire(j)) && !TouchesKeys(s.calls[j].patch)
    requires NextVersion(s.calls[u].expected) != NextVersion(s.calls[j].expected)
    ensures CanBreak(s, start)
  {
    var s1 := Next(s, Acquire(j));
    LateWriteBreaks(Next(s1, WriteRedis(j, true)), start, u, j);
    CanBreakAfter(s1, WriteRedis(j, true), start);
    CanBreakAfter(s, Acquire(j), start);
  }

  /** An unwritten call on an older mutex, whoever holds that, and a call on a free one. */
  lemma WaitingCallBreaks(s: System, start: View, u: nat, j: nat)
    requires u != j && u < |s.calls| && j < |s.calls| && s.calls[u].at.Waiting?
    requires forall i :: 0 <= i < |s.calls| ==> !Inside(s.calls[i])
    requires forall i, k :: 0 <= i < k < |s.calls| && Holds(s.calls[i]) && Holds(s.calls[k]) ==>
      s.calls[i].mutex != s.calls[k].mutex
    requires s.calls[u].mutex != s.calls[j].mutex && Enabled(s, Acquire(j)) && !TouchesKeys(s.calls[j].patch)
    requires NextVersion(s.calls[u].expected) != NextVersion(s.calls[j].expected)
    ensures CanBreak(s, start)
  {
    if IsFree(s, s.calls[u].mutex) {
      SecondCallerBreaks(Next(s, Acquire(u)), start, u, j);
      CanBreakAfter(s, Acquire(u), start);
    } else {
      var h :| 0 <= h < |s.calls| && s.calls[h].mutex == s.calls[u].mutex && Holds(s.calls[h]);
      var s1 := Next(s, Finish(h));
      assert Enabled(s1, Acquire(u));
      SecondCallerBreaks(Next(s1, Acquire(u)), start, u, j);
      CanBreakAfter(s1, Acquire(u), start);
      CanBreakAfter(s, Finish(h), start);
    }
  }

  /** Whatever call arrives and whatever legal steps follow, Redis stays serialised. */
  ghost predicate ArrivalsAreSafe(s: System, start: View) {
    forall patch, expected :: !CanBreak(Next(s, Arrive(patch, expected)), start)
  }

  /** The condition is exact: a new call is safe, whatever it carries and whatever follows, if and only if it
      fits in. After an eviction, while some call is yet to write, it is not. */
  lemma ArrivalsAreSafeExactlyWhenTheyFit(s: System, start: View)
    requires Inv(s, start)
    ensures ArrivalsAreSafe(s, start) <==> Fits(s)
  {
    if Fits(s) {
      forall patch, expected ensures !CanBreak(Next(s, Arrive(patch, expected)), start) {
        ArrivalIsSafe(s, start, patch, expected);
      }
    } else {
      var u :| 0 <= u < |s.calls| && Unwritten(s.calls[u]);
      if exists v :: 0 <= v < |s.calls| && Inside(s.calls[v]) {
        u :| 0 <= u < |s.calls| && Inside(s.calls[u]);
      }
      UnfitArrivalBreaks(s, start, u);
    }
  }

  lemma ArrivalIsSafe(s: System, start: View, patch: AuthPatch, expected: Option<int>)
    requires Inv(s, start) && Fits(s)
    ensures !CanBreak(Next(s, Arrive(patch, expected)), start)
  {
    var s1 := Next(s, Arrive(patch, expected));
    StepKeepsInv(s, start, Arrive(patch, expected));
    forall rest | LegalRun(s1, rest) ensures Serialised(Run(s1, rest), start) {
      RunKeepsInv(s1, start, rest);
    }
  }

  lemma UnfitArrivalBreaks(s: System, start: View, u: nat)
    requires Inv(s, start) && s.filed.None? && u < |s.calls| && Unwritten(s.calls[u])
    requires !Inside(s.calls[u]) ==> forall v :: 0 <= v < |s.calls| ==> !Inside(s.calls[v])
    ensures !ArrivalsAreSafe(s, start)
  {
    var expected := Some(NextVersion(s.calls[u].expected));
    var patch := AuthPatch(Some("creds"), None, None);
    var j := |s.calls|;
    var s1 := Next(s, Arrive(patch, expected));
    assert CallOk(s, u);
    forall i | 0 <= i < |s.calls| ensures s.calls[i].mutex < s.mutexes {
      assert CallOk(s, i);
    }
    assert Enabled(s1, Acquire(j));
    if Inside(s.calls[u]) {
      SecondCallerBreaks(s1, start, u, j);
    } else {
      forall i, k | 0 <= i < k < |s1.calls| && Holds(s1.calls[i]) && Holds(s1.calls[k])
        ensures s1.calls[i].mutex != s1.calls[k].mutex
      {
        assert PairOk(s, i, k);
      }
      WaitingCallBreaks(s1, start, u, j);
    }
  }

  /** An evicted mutex lets a second caller in: not one that was queueing, but one that comes later. */
  lemma EvictionLetsTwoIn(s: System, start: View, i: nat, patch: AuthPatch, expected: Option<int>)
    requires Inv(s, start) && i < |s.calls| && s.calls[i].at.HasRead? && TouchesKeys(patch)
    ensures var s1 := Next(s, EvictMutex);
            var s2 := Next(s1, Arrive(patch, expected));
            var j := |s.calls|;
            && (forall k :: 0 <= k < |s.calls| ==> !Enabled(s2, Acquire(k)))
            && Enabled(s2, Acquire(j))
            && var s4 := Next(Next(s2, Acquire(j)), ReadKeys(j));
               s4.calls[i].at == HasRead(s.redis.keys) == s4.calls[j].at && s4.redis == s.redis
  {
    var s2 := Next(Next(s, EvictMutex), Arrive(patch, expected));
    forall k | 0 <= k < |s.calls| ensures s.calls[k].mutex < s.mutexes && !Enabled(s2, Acquire(k)) {
      assert CallOk(s, i) && CallOk(s, k) && PairOk(s, i, k);
      assert s2.calls[i] == s.calls[i] && s2.calls[k] == s.calls[k];
    }
  }

  /** Two callers inside lose an update: both sets succeed, and what only the first one said about an id is
      gone. */
  lemma TwoInsideLoseAnUpdate(s: System, i: nat, j: nat, t: string, id: string, v: Value)
    requires i != j && i < |s.calls| && j < |s.calls| && v != Null
    requires s.calls[i].at == HasRead(s.redis.keys) == s.calls[j].at
    requires s.calls[i].patch.keys.Some? && s.calls[j].patch.keys.Some?
    requires Lookup(s.calls[i].patch.keys.value, t, id) == Some(v)
    requires Lookup(s.calls[j].patch.keys.value, t, id) == None == Lookup(TableOf(s.redis), t, id)
    ensures var s1 := Next(s, WriteRedis(i, true));
            var s2 := Next(s1, WriteRedis(j, true));
            && s2.calls[i].wrote && s2.calls[j].wrote
            && Lookup(TableOf(s1.redis), t, id) == Some(v)
            && Lookup(TableOf(s2.redis), t, id) == None
  {
    MergeLooksUp(TableOf(s.redis), s.calls[i].patch.keys.value, t, id);
    MergeLooksUp(TableOf(s.redis), s.calls[j].patch.keys.value, t, id);
    hide MergeKeys;
  }

  // ----- nobody waits for ever -----

  predicate OfACall(step: Step) {
    !step.Arrive? && !step.EvictMutex?
  }

  function CallOf(step: Step): nat
    requires OfACall(step)
  {
    step.i
  }

  /** The commands a call has before it at most. */
  function Ahead(at: CallAt): nat {
    match at
    case Waiting => 4
    case Locked => 3
    case HasRead(_) => 2
    case Persisting => 1
    case Over => 0
  }

  function WorkLeft(calls: seq<Call>): nat {
    if calls == [] then 0 else Ahead(calls[0].at) + WorkLeft(calls[1..])
  }

  lemma {:induction false} WorkIsDone(calls: seq<Call>, i: nat, c: Call)
    requires i < |calls|
    ensures WorkLeft(calls[i := c]) == WorkLeft(calls) - Ahead(calls[i].at) + Ahead(c.at)
  {
    var changed := calls[i := c];
    if i > 0 {
      assert changed[1..] == calls[1..][i - 1 := c];
      WorkIsDone(calls[1..], i - 1, c);
    } else {
      assert changed[1..] == calls[1..];
    }
  }

  /** The next step of a call that holds its mutex. */
  function Onward(s: System, i: nat): Step
    requires i < |s.calls|
  {
    match s.calls[i].at
    case Persisting => Finish(i)
    case HasRead(_) => WriteRedis(i, true)
    case _ => if TouchesKeys(s.calls[i].patch) then ReadKeys(i) else WriteRedis(i, true)
  }

  /** No deadlock: whatever the state, a call that is not over can go on itself or waits for a holder that can; and
      every command takes one from the finite work of the calls there are. */
  lemma SomebodyCanGoOn(s: System, i: nat)
    requires i < |s.calls| && !s.calls[i].at.Over?
    ensures exists step :: OfACall(step) && Enabled(s, step)
                           && CallOf(step) < |s.calls| && s.calls[CallOf(step)].mutex == s.calls[i].mutex
  {
    if Holds(s.calls[i]) {
      assert Enabled(s, Onward(s, i)) && CallOf(Onward(s, i)) == i;
    } else if IsFree(s, s.calls[i].mutex) {
      assert Enabled(s, Acquire(i)) && CallOf(Acquire(i)) == i;
    } else {
      var j :| 0 <= j < |s.calls| && s.calls[j].mutex == s.calls[i].mutex && Holds(s.calls[j]);
      assert Enabled(s, Onward(s, j)) && CallOf(Onward(s, j)) == j;
    }
  }

  lemma CommandsUseUpTheWork(s: System, step: Step)
    requires Enabled(s, step) && OfACall(step)
    ensures WorkLeft(Next(s, step).calls) < WorkLeft(s.calls)
  {
    var i := CallOf(step);
    var next := Next(s, step).calls;
    WorkIsDone(s.calls, i, next[i]);
    assert next == s.calls[i := next[i]];
  }

  /** A call whose pipeline failed is over, has written nothing, and gives its mutex up at once. */
  lemma FailedCallFreesItsMutex(s: System, start: View, i: nat)
    requires Inv(s, start) && Enabled(s, WriteRedis(i, false))
    ensures var next := Next(s, WriteRedis(i, false));
            && next.calls[i].at == Over && !next.calls[i].wrote && next.redis == s.redis
            && IsFree(next, s.calls[i].mutex)
  {
    assert CallOk(s, i);
    forall j | 0 <= j < |s.calls| && s.calls[j].mutex == s.calls[i].mutex && j != i ensures !Holds(s.calls[j]) {
      assert PairOk(s, i, j);
    }
  }
}
