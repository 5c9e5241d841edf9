/** The token bucket: refill, non-blocking and blocking acquisition, over real time in milliseconds. */
module TokenBucket {
  import opened AuthTypes

  datatype Config = Config(maxTokens: real, refillRate: real) // tokens per second

  datatype Bucket = Bucket(tokens: real, lastRefill: real)

  function Min(a: real, b: real): real {
    if a <= b then a else b
  }

  /** The tokens a stretch of time earns. */
  function Earn(c: Config, from: real, to: real): real {
    (to - from) / 1000.0 * c.refillRate
  }

  /** The bucket after refill at `now`. */
  function Refilled(c: Config, b: Bucket, now: real): Bucket {
    Bucket(Min(c.maxTokens, b.tokens + Earn(c, b.lastRefill, now)), now)
  }

  predicate Askable(c: Config, count: real) {
    0.0 < count <= c.maxTokens
  }

  function Granted(c: Config, b: Bucket, count: real, now: real): bool {
    Askable(c, count) && Refilled(c, b, now).tokens >= count
  }

  /** tryAcquire: a count out of range throws before the refill. */
  function AfterTry(c: Config, b: Bucket, count: real, now: real): Bucket {
    var r := Refilled(c, b, now);
    if !Askable(c, count) then b
    else if r.tokens >= count then r.(tokens := r.tokens - count) else r
  }

  function WaitTime(c: Config, b: Bucket, count: real, now: real): real
    requires c.refillRate != 0.0
  {
    var r := Refilled(c, b, now);
    if r.tokens >= count then 0.0 else (count - r.tokens) / c.refillRate * 1000.0
  }

  predicate Sane(c: Config, b: Bucket) {
    0.0 <= b.tokens <= c.maxTokens && c.refillRate >= 0.0
  }

  lemma Earned(c: Config, from: real, mid: real, to: real)
    ensures Earn(c, from, mid) + Earn(c, mid, to) == Earn(c, from, to)
  {
    assert (mid - from) / 1000.0 + (to - mid) / 1000.0 == (to - from) / 1000.0;
  }

  lemma EarnedInTime(c: Config, from: real, to: real)
    ensures c.refillRate >= 0.0 && from <= to ==> Earn(c, from, to) >= 0.0
    ensures Earn(c, to, to) == 0.0
  {
  }

  /** Refilling on the way changes nothing. */
  lemma RefillComposes(c: Config, b: Bucket, mid: real, to: real)
    requires c.refillRate >= 0.0 && b.lastRefill <= mid <= to
    ensures Refilled(c, Refilled(c, b, mid), to) == Refilled(c, b, to)
  {
    hide Earn;
    Earned(c, b.lastRefill, mid, to);
    EarnedInTime(c, mid, to);
  }

  lemma RefillKeepsSane(c: Config, b: Bucket, now: real)
    requires Sane(c, b) && b.lastRefill <= now
    ensures Sane(c, Refilled(c, b, now)) && b.tokens <= Refilled(c, b, now).tokens
    ensures Refilled(c, b, now).tokens <= b.tokens + Earn(c, b.lastRefill, now)
  {
    EarnedInTime(c, b.lastRefill, now);
  }

  // ----- runs -----

  /** `Look` stands for getAvailableTokens, getWaitTime and getState; an extra one was inserted. */
  datatype Event = Try(count: real, at: real) | Look(at: real, extra: bool)

  datatype Reading = Answer(granted: bool) | Level(tokens: real)

  function After(c: Config, b: Bucket, e: Event): Bucket {
    match e
    case Try(count, at) => AfterTry(c, b, count, at)
    case Look(at, _) => Refilled(c, b, at)
  }

  function Read(c: Config, b: Bucket, e: Event): Reading {
    match e
    case Try(count, at) => Answer(Granted(c, b, count, at))
    case Look(at, _) => Level(Refilled(c, b, at).tokens)
  }

  /** The clock does not run backwards. */
  predicate Monotone(events: seq<Event>, from: real) {
    events == [] || (from <= events[0].at && Monotone(events[1..], events[0].at))
  }

  function Run(c: Config, b: Bucket, events: seq<Event>): Bucket
    decreases |events|
  {
    if events == [] then b else Run(c, After(c, b, events[0]), events[1..])
  }

  /** What the caller sees of the events that were not inserted. */
  function Readings(c: Config, b: Bucket, events: seq<Event>): seq<Reading>
    decreases |events|
  {
    if events == [] then []
    else (if events[0].Look? && events[0].extra then [] else [Read(c, b, events[0])])
         + Readings(c, After(c, b, events[0]), events[1..])
  }

  function WithoutExtras(events: seq<Event>): seq<Event> {
    if events == [] then []
    else (if events[0].Look? && events[0].extra then [] else [events[0]]) + WithoutExtras(events[1..])
  }

  /** The tokens handed out by a run. */
  function TotalGranted(c: Config, b: Bucket, events: seq<Event>): real
    decreases |events|
  {
    if events == [] then 0.0
    else GrantOf(c, b, events[0]) + TotalGranted(c, After(c, b, events[0]), events[1..])
  }

  lemma {:induction false} EventsAreWithin(events: seq<Event>, from: real, to: real)
    requires Monotone(events, from) && from <= to && forall i :: 0 <= i < |events| ==> events[i].at <= to
    ensures events != [] ==> from <= events[0].at <= to
    ensures events != [] ==> forall i :: 0 <= i < |events[1..]| ==> events[1..][i].at <= to
  {
  }

  function GrantOf(c: Config, b: Bucket, e: Event): real {
    if e.Try? && Granted(c, b, e.count, e.at) then e.count else 0.0
  }

  lemma OneEventConserves(c: Config, b: Bucket, e: Event, from: real)
    requires Sane(c, b) && b.lastRefill <= from <= e.at
    ensures var next := After(c, b, e);
            && Sane(c, next) && next.lastRefill <= e.at
            && GrantOf(c, b, e) + Refilled(c, next, e.at).tokens == Refilled(c, b, e.at).tokens
            && Refilled(c, b, e.at).tokens <= Refilled(c, b, from).tokens + Earn(c, from, e.at)
  {
    hide Earn;
    RefillKeepsSane(c, b, from);
    RefillKeepsSane(c, b, e.at);
    RefillKeepsSane(c, Refilled(c, b, from), e.at);
    RefillComposes(c, b, from, e.at);
    RefillAtOnce(c, After(c, b, e), e.at);
  }

  /** Conservation over any window: what was granted, plus what is left, is at most what was there plus
      what the window earned; and the level never leaves its bounds. */
  lemma {:induction false} WindowBound(c: Config, b: Bucket, events: seq<Event>, from: real, to: real)
    requires Sane(c, b) && b.lastRefill <= from <= to
    requires Monotone(events, from) && forall i :: 0 <= i < |events| ==> events[i].at <= to
    ensures var end := Run(c, b, events);
            && Sane(c, end) && end.lastRefill <= to
            && TotalGranted(c, b, events) + Refilled(c, end, to).tokens
               <= Refilled(c, b, from).tokens + Earn(c, from, to)
    decreases |events|
  {
    hide Earn;
    if events == [] {
      RefillComposes(c, b, from, to);
      RefillKeepsSane(c, b, from);
      RefillKeepsSane(c, Refilled(c, b, from), to);
    } else {
      var e, tail := events[0], events[1..];
      var next := After(c, b, e);
      EventsAreWithin(events, from, to);
      OneEventConserves(c, b, e, from);
      WindowBound(c, next, tail, e.at, to);
      Earned(c, from, e.at, to);
    }
  }

  lemma RefillAtOnce(c: Config, b: Bucket, now: real)
    requires Sane(c, b)
    ensures b.lastRefill == now ==> Refilled(c, b, now) == b
  {
    EarnedInTime(c, now, now);
  }

  /** The rate limit the bucket is for: no more than the level at `from` plus the refill of the window. */
  lemma GrantsAreRateLimited(c: Config, b: Bucket, events: seq<Event>, from: real, to: real)
    requires Sane(c, b) && b.lastRefill <= from <= to
    requires Monotone(events, from) && forall i :: 0 <= i < |events| ==> events[i].at <= to
    ensures TotalGranted(c, b, events) <= Refilled(c, b, from).tokens + (to - from) / 1000.0 * c.refillRate
  {
    assert Earn(c, from, to) == (to - from) / 1000.0 * c.refillRate;
    hide Earn;
    WindowBound(c, b, events, from, to);
    RefillKeepsSane(c, Run(c, b, events), to);
  }

  /** Two buckets nobody can tell apart from `now` on. */
  predicate Agree(c: Config, a: Bucket, b: Bucket, now: real) {
    a.lastRefill <= now && b.lastRefill <= now && Refilled(c, a, now) == Refilled(c, b, now)
  }

  lemma AgreementLasts(c: Config, a: Bucket, b: Bucket, now: real, later: real)
    requires c.refillRate >= 0.0 && Agree(c, a, b, now) && now <= later
    ensures Agree(c, a, b, later)
  {
    RefillComposes(c, a, now, later);
    RefillComposes(c, b, now, later);
  }

  /** Observers are invisible: with any number of them inserted anywhere, every other call answers the same. */
  lemma {:induction false} ObserversChangeNothing(c: Config, a: Bucket, b: Bucket, events: seq<Event>, now: real)
    requires c.refillRate >= 0.0 && Agree(c, a, b, now) && Monotone(events, now)
    ensures Readings(c, a, events) == Readings(c, b, WithoutExtras(events))
    decreases |events|
  {
    if events != [] {
      var e := events[0];
      AgreementLasts(c, a, b, now, e.at);
      if e.Look? && e.extra {
        RefillComposes(c, a, e.at, e.at);
        ObserversChangeNothing(c, After(c, a, e), b, events[1..], e.at);
        assert WithoutExtras(events) == WithoutExtras(events[1..]);
      } else {
        ObserversChangeNothing(c, After(c, a, e), After(c, b, e), events[1..], e.at);
        assert WithoutExtras(events)[1..] == WithoutExtras(events[1..]);
      }
    }
  }

  // ----- waiting -----

  /** What tryAcquire grants, in full: a positive count up to the maximum that what was left, plus the rate for every
      second since, covers. It takes exactly what it grants. */
  lemma GrantedExactlyWhenEarned(c: Config, b: Bucket, count: real, now: real)
    ensures Granted(c, b, count, now)
       <==> 0.0 < count <= c.maxTokens && count <= b.tokens + (now - b.lastRefill) / 1000.0 * c.refillRate
    ensures 0.0 < count <= c.maxTokens ==>
      && AfterTry(c, b, count, now).lastRefill == now
      && AfterTry(c, b, count, now).tokens + (if Granted(c, b, count, now) then count else 0.0)
           == Min(c.maxTokens, b.tokens + (now - b.lastRefill) / 1000.0 * c.refillRate)
    ensures !(0.0 < count <= c.maxTokens) ==> AfterTry(c, b, count, now) == b
  {
  }

  /** getWaitTime is exact: it is the least wait after which tryAcquire succeeds. */
  lemma WaitTimeIsLeast(c: Config, b: Bucket, count: real, now: real, wait: real)
    requires c.refillRate > 0.0 && Askable(c, count) && b.lastRefill <= now && wait >= 0.0
    ensures Granted(c, b, count, now + wait) <==> WaitTime(c, b, count, now) <= wait
  {
    var r := Refilled(c, b, now);
    RefillComposes(c, b, now, now + wait);
    EarnedInTime(c, now, now + wait);
    assert (now + wait - now) / 1000.0 * c.refillRate == wait / 1000.0 * c.refillRate;
    if r.tokens < count {
      Scale(count - r.tokens, c.refillRate, wait);
    }
  }

  /** Without refill, waiting never helps. */
  lemma WaitingIsVainWithoutRefill(c: Config, b: Bucket, count: real, now: real, wait: real)
    requires c.refillRate == 0.0
    ensures Granted(c, b, count, now + wait) <==> Granted(c, b, count, now)
  {
    assert Earn(c, b.lastRefill, now) == 0.0 == Earn(c, b.lastRefill, now + wait);
  }

  lemma Scale(needed: real, rate: real, wait: real)
    requires rate > 0.0
    ensures needed <= wait / 1000.0 * rate <==> needed / rate * 1000.0 <= wait
  {
    var d := needed / rate;
    assert d * rate == needed;
    var w := wait / 1000.0;
    if needed <= w * rate {
      if d > w { assert d * rate > w * rate; }
    } else {
      if d <= w { assert d * rate <= w * rate; }
    }
  }

  /** The wait that remains once `elapsed` has gone by. */
  lemma WaitShrinks(c: Config, b: Bucket, count: real, now: real, elapsed: real)
    requires c.refillRate > 0.0 && Askable(c, count) && b.lastRefill <= now && elapsed >= 0.0
    ensures !Granted(c, b, count, now + elapsed) ==>
      WaitTime(c, b, count, now + elapsed) == WaitTime(c, b, count, now) - elapsed
  {
    var r := Refilled(c, b, now);
    RefillComposes(c, b, now, now + elapsed);
    EarnedInTime(c, now, now + elapsed);
    if !Granted(c, b, count, now + elapsed) {
      var gained := (now + elapsed - now) / 1000.0 * c.refillRate;
      assert Refilled(c, b, now + elapsed).tokens == r.tokens + gained;
      Split(count - r.tokens, elapsed, c.refillRate);
    }
  }

  lemma Split(needed: real, elapsed: real, rate: real)
    requires rate > 0.0
    ensures (needed - elapsed / 1000.0 * rate) / rate * 1000.0 == needed / rate * 1000.0 - elapsed
  {
    var e := elapsed / 1000.0;
    assert (needed - e * rate) / rate == needed / rate - e by {
      var q := needed / rate;
      assert q * rate == needed;
      assert (q - e) * rate == needed - e * rate;
    }
  }

  /** A full bucket stays full. */
  lemma FullBucketStaysFull(c: Config, now: real, later: real)
    requires c.refillRate >= 0.0 && now <= later
    ensures Refilled(c, Bucket(c.maxTokens, now), later) == Bucket(c.maxTokens, later)
  {
    EarnedInTime(c, now, later);
    hide Earn;
  }

  function Ceil(x: real): int {
    -((-x).Floor)
  }

  /** What the abort signal does after a failed attempt: nothing, or it is found aborted before the sleep, or it
      fires some time into the sleep and rejects it at once. */
  datatype Abort = NoAbort | BeforeSleep | IntoSleep(after: real)

  class TokenBucket {
    var tokens: real
    var lastRefill: real
    const maxTokens: real
    const refillRate: real

    function Settings(): Config { Config(maxTokens, refillRate) }

    function State(): Bucket
      reads this
    {
      Bucket(tokens, lastRefill)
    }

    constructor (maxTokens: real, refillRate: real, initialTokens: Option<real>, now: real)
      ensures Settings() == Config(maxTokens, refillRate)
      ensures State() == Bucket(GetOr(initialTokens, maxTokens), now)
    {
      this.maxTokens, this.refillRate := maxTokens, refillRate;
      tokens, lastRefill := if initialTokens.Some? then initialTokens.value else maxTokens, now;
    }

    method Refill(now: real)
      modifies this
      ensures State() == Refilled(Settings(), old(State()), now)
    {
      var elapsed := (now - lastRefill) / 1000.0;
      var tokensToAdd := elapsed * refillRate;
      tokens := if maxTokens <= tokens + tokensToAdd then maxTokens else tokens + tokensToAdd;
      lastRefill := now;
    }

    method TryAcquire(count: real, now: real) returns (r: Result<bool>)
      modifies this
      ensures r == if !Askable(Settings(), count) then Err(StorageFailure)
                   else Ok(Granted(Settings(), old(State()), count, now))
      ensures State() == AfterTry(Settings(), old(State()), count, now)
    {
      if count <= 0.0 { return Err(StorageFailure); }
      if count > maxTokens { return Err(StorageFailure); }
      Refill(now);
      if tokens >= count {
        tokens := tokens - count;
        return Ok(true);
      }
      r := Ok(false);
    }

    method GetAvailableTokens(now: real) returns (available: real)
      modifies this
      ensures State() == Refilled(Settings(), old(State()), now) && available == tokens
    {
      Refill(now);
      available := tokens;
    }

    /** None is Infinity: tokens are missing and none ever come. */
    method GetWaitTime(count: real, now: real) returns (wait: Option<real>)
      modifies this
      ensures State() == Refilled(Settings(), old(State()), now)
      ensures wait.None? <==> refillRate == 0.0 && tokens < count
      ensures wait.Some? ==>
        wait.value == if refillRate == 0.0 then 0.0 else WaitTime(Settings(), old(State()), count, now)
    {
      Refill(now);
      if tokens >= count { return Some(0.0); }
      var tokensNeeded := count - tokens;
      if refillRate == 0.0 { return None; }
      wait := Some(tokensNeeded / refillRate * 1000.0);
    }

    method Reset(now: real)
      modifies this
      ensures State() == Bucket(maxTokens, now)
    {
      tokens, lastRefill := maxTokens, now;
    }

    /** The blocking acquire, started at `start`. Sleep number i lasts as long as asked plus `late(i)`, and
        `abort(i)` says what the signal does after attempt i; the last attempt is made at `tried`. An acquire
        that succeeds took its tokens once, from the bucket as it would be without the failed attempts; one
        that is aborted took none. Without refill nobody who has to wait is served: such a call ends when it is
        aborted, and a call that is not never ends. */
    method Acquire(count: real, start: real, late: nat -> real, abort: nat -> Abort)
      returns (r: Result<()>, attempts: nat, tried: real, end: real)
      requires refillRate >= 0.0 && lastRefill <= start
      requires refillRate == 0.0 && Askable(Settings(), count) && !Granted(Settings(), State(), count, start) ==>
        exists i: nat :: !abort(i).NoAbort?
      requires forall i: nat :: late(i) >= 0.0
      modifies this
      ensures !Askable(Settings(), count) ==> r.Err? && attempts == 0 && State() == old(State())
      ensures Askable(Settings(), count) ==>
        && start <= tried && 1 <= attempts
        && (forall i: nat :: i < attempts - 1 ==> abort(i).NoAbort?)
        && (r.Ok? ==>
              && Granted(Settings(), old(State()), count, tried) && end == tried
              && State() == AfterTry(Settings(), old(State()), count, tried))
        && (r.Err? ==>
              && !abort(attempts - 1).NoAbort? && !Granted(Settings(), old(State()), count, tried)
              && State() == Refilled(Settings(), old(State()), tried)
              && end == tried + if abort(attempts - 1).IntoSleep? then abort(attempts - 1).after else 0.0)
      ensures Askable(Settings(), count) && refillRate > 0.0 ==>
        var most := Ceil(WaitTime(Settings(), old(State()), count, start) / 100.0) + 1;
        attempts <= most && (r.Ok? && (forall i: nat :: late(i) == 0.0) ==> attempts == most)
      ensures Askable(Settings(), count) && refillRate == 0.0 ==>
        && (r.Ok? <==> Granted(Settings(), old(State()), count, start)) && (r.Ok? ==> attempts == 1)
    {
      attempts, tried, end := 0, start, start;
      if count <= 0.0 || count > maxTokens { return Err(StorageFailure), attempts, tried, end; }
      ghost var c, b := Settings(), State();
      ghost var wait := if refillRate > 0.0 then WaitTime(c, b, count, start) else 0.0;
      if refillRate > 0.0 { WaitIsNonNegative(c, b, count, start); }
      ghost var last := LastAttemptBound(c, b, count, start, wait, abort);
      hide Earn;
      hide WaitTime;
      hide Elapsed;
      while true
        invariant start <= end && b.lastRefill <= end && lastRefill <= end
        invariant Refilled(c, State(), end) == Refilled(c, b, end)
        invariant forall i: nat :: i < attempts ==> abort(i).NoAbort?
        invariant refillRate > 0.0 ==> Elapsed(attempts, end - start, wait) && 100.0 * attempts as real < wait + 100.0
        invariant refillRate > 0.0 && (forall i: nat :: late(i) == 0.0) ==>
          end - start == Min(wait, 100.0 * attempts as real)
        invariant refillRate == 0.0 && attempts > 0 ==> !Granted(c, b, count, start)
        invariant attempts <= last
        decreases last - attempts
      {
        tried := end;
        Attempt(c, b, count, start, tried, attempts, wait);
        var ok := TryAcquire(count, tried);
        attempts := attempts + 1;
        if ok.value { return Ok(()), attempts, tried, end; }
        if abort(attempts - 1).BeforeSleep? { return Err(StorageFailure), attempts, tried, end; }
        assert State() == Refilled(c, b, end);
        var tokensNeeded := count - tokens;
        var waitTimeMs := if refillRate == 0.0 then 100.0 else Min(tokensNeeded / refillRate * 1000.0, 100.0);
        if refillRate > 0.0 { NextSleep(c, b, count, tried, attempts - 1, end - start, wait, late(attempts - 1)); }
        if abort(attempts - 1).IntoSleep? {
          return Err(StorageFailure), attempts, tried, end + abort(attempts - 1).after;
        }
        var slept := waitTimeMs + late(attempts - 1);
        RefillComposes(c, b, end, end + slept);
        end := end + slept;
      }
    }
  }

  /** The last attempt there can be: the one at the end of the wait, or, without refill, the first if it is
      granted and else the first after which the signal is found aborted. */
  ghost function LastAttemptBound(c: Config, b: Bucket, count: real, start: real, wait: real, abort: nat -> Abort): nat
    requires wait >= 0.0
    requires c.refillRate == 0.0 && !Granted(c, b, count, start) ==> exists i: nat :: !abort(i).NoAbort?
  {
    if c.refillRate != 0.0 then Ceil(wait / 100.0)
    else if Granted(c, b, count, start) then 0
    else var i: nat :| !abort(i).NoAbort?; i
  }

  /** What attempt number k finds. */
  lemma Attempt(c: Config, b: Bucket, count: real, start: real, tried: real, k: nat, wait: real)
    requires c.refillRate >= 0.0 && Askable(c, count) && b.lastRefill <= start <= tried
    requires c.refillRate > 0.0 ==>
      wait == WaitTime(c, b, count, start) && Elapsed(k, tried - start, wait) && 100.0 * k as real < wait + 100.0
    ensures c.refillRate > 0.0 ==>
      && k <= Ceil(wait / 100.0)
      && (if Granted(c, b, count, tried)
          then tried - start == Min(wait, 100.0 * k as real) ==> k == Ceil(wait / 100.0)
          else WaitTime(c, b, count, tried) == wait - (tried - start) > 0.0)
    ensures c.refillRate == 0.0 ==> (Granted(c, b, count, tried) <==> Granted(c, b, count, start))
  {
    if c.refillRate == 0.0 {
      WaitingIsVainWithoutRefill(c, b, count, start, tried - start);
    } else {
      WaitTimeIsLeast(c, b, count, start, tried - start);
      WaitShrinks(c, b, count, start, tried - start);
      WaitIsNonNegative(c, b, count, start);
      hide Refilled;
      hide WaitTime;
    }
  }

  /** After k sleeps, 100 k milliseconds have gone by, or the whole wait. */
  predicate Elapsed(k: nat, elapsed: real, wait: real) {
    elapsed >= Min(wait, 100.0 * k as real)
  }

  /** The sleep after a failed attempt lasts 100 milliseconds or the rest of the wait. */
  lemma NextSleep(c: Config, b: Bucket, count: real, tried: real, k: nat, elapsed: real, wait: real, late: real)
    requires c.refillRate > 0.0 && late >= 0.0 && Refilled(c, b, tried).tokens < count
    requires Elapsed(k, elapsed, wait) && WaitTime(c, b, count, tried) == wait - elapsed > 0.0
    ensures (count - Refilled(c, b, tried).tokens) / c.refillRate * 1000.0 == wait - elapsed
    ensures Elapsed(k + 1, elapsed + Min(wait - elapsed, 100.0) + late, wait)
    ensures 100.0 * (k + 1) as real < wait + 100.0
    ensures elapsed == Min(wait, 100.0 * k as real) ==>
      elapsed + Min(wait - elapsed, 100.0) == Min(wait, 100.0 * (k + 1) as real)
  {
    hide Refilled;
  }

  lemma WaitIsNonNegative(c: Config, b: Bucket, count: real, now: real)
    requires c.refillRate > 0.0
    ensures WaitTime(c, b, count, now) >= 0.0
  {
    Scale(count - Refilled(c, b, now).tokens, c.refillRate, 0.0);
  }
}
