/** The session rate limiter: the effective limit of a session and the bucket derived from it. */
module RateLimiter {
  import opened AuthTypes
  import TB = TokenBucket

  datatype LimiterConfig = LimiterConfig(
    maxMessagesPerMinute: real, coldContactMultiplier: real, warmupPeriodDays: real, enabled: bool)

  datatype Meta = Meta(createdAt: real, totalMessages: nat, isWarmup: bool)

  const MS_PER_DAY := 86400000.0

  function Days(createdAt: real, now: real): real {
    (now - createdAt) / MS_PER_DAY
  }

  /** The share of the limit a session of that age gets. */
  function WarmupShare(c: LimiterConfig, days: real): real
    requires days >= 0.0
  {
    if days < c.warmupPeriodDays then 0.3 + days / c.warmupPeriodDays * 0.7 else 1.0
  }

  function AtLeastOne(x: real): int {
    if x.Floor < 1 then 1 else x.Floor
  }

  /** The limit of a session past its warm-up, before rounding. */
  function Base(c: LimiterConfig, cold: bool): real {
    if cold then c.maxMessagesPerMinute * c.coldContactMultiplier else c.maxMessagesPerMinute
  }

  function Scaled(base: real, share: real): int {
    AtLeastOne(base * share)
  }

  /** The limit by age alone, without the stored warm-up flag. */
  function LimitByAge(c: LimiterConfig, days: real, cold: bool): int
    requires days >= 0.0
  {
    Scaled(Base(c, cold), WarmupShare(c, days))
  }

  lemma ShareGrows(c: LimiterConfig, days: real, later: real)
    requires 0.0 <= days <= later
    ensures 0.0 < WarmupShare(c, days) <= WarmupShare(c, later) <= 1.0
  {
    if days < c.warmupPeriodDays { Progress(days, c.warmupPeriodDays); }
    if later < c.warmupPeriodDays {
      Progress(later, c.warmupPeriodDays);
      ProgressGrows(days, later, c.warmupPeriodDays);
    }
  }

  lemma Progress(days: real, period: real)
    requires 0.0 <= days < period
    ensures 0.0 <= days / period < 1.0
  {
    var q := days / period;
    assert q * period == days;
  }

  lemma ProgressGrows(days: real, later: real, period: real)
    requires 0.0 <= days <= later < period
    ensures days / period <= later / period
  {
    var p, q := days / period, later / period;
    assert p * period == days && q * period == later;
  }

  /** A larger share never makes the limit smaller; a negative product is 1 at any share. */
  lemma LargerShare(p: real, w: real, w': real)
    requires 0.0 < w <= w'
    ensures 1 <= Scaled(p, w) <= Scaled(p, w')
  {
    if p >= 0.0 {
      assert p * w <= p * w';
    } else {
      assert p * w <= 0.0;
    }
  }

  lemma LargerProduct(p: real, p': real, w: real)
    requires p <= p' && 0.0 < w
    ensures Scaled(p, w) <= Scaled(p', w)
  {
    assert p * w <= p' * w;
  }

  /** Whatever the configuration, the limit is at least 1 and never falls as a session ages; and a multiplier
      that does not raise the maximum makes it no larger for cold contacts. */
  lemma LimitNeverFalls(c: LimiterConfig, days: real, later: real, cold: bool)
    requires 0.0 <= days <= later
    ensures 1 <= LimitByAge(c, days, cold) <= LimitByAge(c, later, cold)
    ensures Base(c, true) <= Base(c, false) ==> LimitByAge(c, days, true) <= LimitByAge(c, days, false)
  {
    ShareGrows(c, days, later);
    hide WarmupShare;
    hide Base;
    hide Scaled;
    LargerShare(Base(c, cold), WarmupShare(c, days), WarmupShare(c, later));
    if Base(c, true) <= Base(c, false) {
      LargerProduct(Base(c, true), Base(c, false), WarmupShare(c, days));
    }
  }

  /** Whole messages, at least one. */
  predicate RoundsDown(x: real, limit: int) {
    && (x < 1.0 ==> limit == 1)
    && (x >= 1.0 ==> limit as real <= x < limit as real + 1.0)
  }

  lemma ScaledInFull(base: real, share: real)
    ensures RoundsDown(base * share, Scaled(base, share))
  {
  }

  /** The limit in full: the configured maximum, times the multiplier for cold contacts, times a share that grows
      evenly from three tenths at creation to the whole when the warm-up days are over; rounded down, but at least
      one message. */
  lemma LimitFollowsTheWarmup(c: LimiterConfig, createdAt: real, now: real, cold: bool)
    requires createdAt <= now
    ensures Days(createdAt, now) >= 0.0
    ensures var days, period := (now - createdAt) / 86400000.0, c.warmupPeriodDays;
            var full := if cold then c.maxMessagesPerMinute * c.coldContactMultiplier else c.maxMessagesPerMinute;
            var share := if days < period then 0.3 + 0.7 * (days / period) else 1.0;
            var limit := LimitByAge(c, Days(createdAt, now), cold);
            RoundsDown(full * share, limit)
  {
    AgeInDays(createdAt, now);
    var days := (now - createdAt) / 86400000.0;
    var share := if days < c.warmupPeriodDays then 0.3 + 0.7 * (days / c.warmupPeriodDays) else 1.0;
    var full := if cold then c.maxMessagesPerMinute * c.coldContactMultiplier else c.maxMessagesPerMinute;
    ShareInFull(c, days);
    BaseInFull(c, cold);
    hide WarmupShare;
    hide Days;
    hide Base;
    hide RoundsDown;
    ScaledInFull(full, share);
    hide Scaled;
  }

  lemma AgeInDays(createdAt: real, now: real)
    requires createdAt <= now
    ensures Days(createdAt, now) == (now - createdAt) / 86400000.0 >= 0.0
  {
  }

  lemma ShareInFull(c: LimiterConfig, days: real)
    requires days >= 0.0
    ensures WarmupShare(c, days) == if days < c.warmupPeriodDays then 0.3 + 0.7 * (days / c.warmupPeriodDays) else 1.0
  {
  }

  lemma BaseInFull(c: LimiterConfig, cold: bool)
    ensures Base(c, cold) == if cold then c.maxMessagesPerMinute * c.coldContactMultiplier else c.maxMessagesPerMinute
  {
  }

  /** An age at which the warm-up is over. */
  function Grown(c: LimiterConfig): (days: real)
    ensures days >= 0.0 && WarmupShare(c, days) == 1.0
  {
    if c.warmupPeriodDays > 0.0 then c.warmupPeriodDays else 0.0
  }

  lemma GrownLimit(c: LimiterConfig, days: real, cold: bool)
    requires days >= Grown(c)
    ensures LimitByAge(c, days, cold) == AtLeastOne(Base(c, cold))
  {
    assert WarmupShare(c, days) == 1.0;
    hide WarmupShare;
    hide Base;
  }

  /** No session ever gets more than the configured maximum. */
  ghost predicate Bounded(c: LimiterConfig) {
    forall days: real, cold: bool :: days >= 0.0 ==> LimitByAge(c, days, cold) as real <= c.maxMessagesPerMinute
  }

  /** The limit never exceeds the configured maximum exactly when the maximum is at least 1 and the cold contact
      multiplier does not lift it by a whole message. */
  lemma LimitIsBoundedExactly(c: LimiterConfig)
    ensures Bounded(c)
       <==> c.maxMessagesPerMinute >= 1.0 && Base(c, true).Floor as real <= c.maxMessagesPerMinute
  {
    var m, grown := c.maxMessagesPerMinute, Grown(c);
    assert Base(c, false) == m;
    GrownLimit(c, grown, false);
    GrownLimit(c, grown, true);
    hide LimitByAge;
    hide WarmupShare;
    hide Base;
    if m >= 1.0 && Base(c, true).Floor as real <= m {
      forall days: real, cold: bool | days >= 0.0 ensures LimitByAge(c, days, cold) as real <= m {
        if days <= grown {
          LimitNeverFalls(c, days, grown, cold);
        } else {
          GrownLimit(c, days, cold);
        }
      }
    }
  }

  class SessionRateLimiter {
    const config: LimiterConfig
    var buckets: map<SessionId, TB.Bucket>
    var metadata: map<SessionId, Meta>

    /** A session whose flag is off is past its warm-up, and no bucket was ever debited. */
    ghost predicate Valid(now: real)
      reads this
    {
      && (forall id :: id in metadata ==>
            && metadata[id].createdAt <= now
            && (!metadata[id].isWarmup ==> Days(metadata[id].createdAt, now) >= config.warmupPeriodDays))
      && (forall id :: id in buckets ==>
            && buckets[id].lastRefill <= now && buckets[id].tokens <= config.maxMessagesPerMinute
            && (config.maxMessagesPerMinute >= 0.0 ==> buckets[id].tokens == config.maxMessagesPerMinute))
    }

    function CreatedAt(id: SessionId, now: real): real
      reads this
    {
      if id in metadata then metadata[id].createdAt else now
    }

    function Messages(id: SessionId): nat
      reads this
    {
      if id in metadata then metadata[id].totalMessages else 0
    }

    constructor (config: LimiterConfig, now: real)
      ensures Valid(now) && this.config == config && buckets == map[] && metadata == map[]
    {
      this.config, buckets, metadata := config, map[], map[];
    }

    /** The flag is only a shortcut: the result is the limit by age. */
    method CalculateEffectiveLimit(id: SessionId, isColdContact: bool, now: real) returns (limit: int)
      requires Valid(now)
      modifies this`metadata
      ensures Valid(now) && Days(old(CreatedAt(id, now)), now) >= 0.0
      ensures limit == LimitByAge(config, Days(old(CreatedAt(id, now)), now), isColdContact)
      ensures id in metadata && metadata[id].createdAt == old(CreatedAt(id, now))
      ensures metadata[id].totalMessages == old(Messages(id))
      ensures metadata[id].isWarmup <==>
        (id in old(metadata) ==> old(metadata)[id].isWarmup)
        && Days(old(CreatedAt(id, now)), now) < config.warmupPeriodDays
      ensures metadata == old(metadata)[id := metadata[id]]
    {
      var meta := if id in metadata then metadata[id] else Meta(now, 0, true);
      var stillWarmup;
      limit, stillWarmup := EffectiveLimit(config, meta, isColdContact, now);
      hide LimitByAge, Days;
      metadata := metadata[id := meta.(isWarmup := stillWarmup)];
    }

    /** getAvailableTokens on the session's own bucket, which is created full and never debited. */
    method OwnTokens(id: SessionId, now: real) returns (available: real)
      requires Valid(now)
      modifies this`buckets
      ensures Valid(now)
      ensures available <= config.maxMessagesPerMinute
      ensures config.maxMessagesPerMinute >= 0.0 ==> available == config.maxMessagesPerMinute
      ensures id in buckets && buckets == old(buckets)[id := TB.Bucket(available, now)]
    {
      if id !in buckets {
        buckets := buckets[id := TB.Bucket(config.maxMessagesPerMinute, now)];
      }
      var own := TB.Config(config.maxMessagesPerMinute, config.maxMessagesPerMinute / 60.0);
      if config.maxMessagesPerMinute >= 0.0 {
        TB.FullBucketStaysFull(own, buckets[id].lastRefill, now);
      }
      buckets := buckets[id := TB.Refilled(own, buckets[id], now)];
      available := buckets[id].tokens;
    }

    /** acquire up to the jitter. The derived bucket never hits its capacity guard, and nobody ever waits for a
        token, however many messages the session sends, exactly when the configured maximum is at least 1:
        the session's own bucket is read but never debited. With a smaller maximum every message waits. */
    method Acquire(id: SessionId, isColdContact: bool, now: real, late: nat -> real, abort: nat -> TB.Abort)
      returns (r: Result<()>, waitTimeMs: real, attempts: nat)
      requires Valid(now)
      requires forall i: nat :: late(i) >= 0.0
      modifies this
      ensures Valid(now)
      ensures !config.enabled ==>
        r.Ok? && waitTimeMs == 0.0 && attempts == 0 && metadata == old(metadata) && buckets == old(buckets)
      ensures config.enabled ==>
        && (waitTimeMs == 0.0 <==> config.maxMessagesPerMinute >= 1.0)
        && 1 <= attempts <= TB.Ceil(waitTimeMs / 100.0) + 1
        && (config.maxMessagesPerMinute >= 1.0 ==> r.Ok? && attempts == 1)
        && (r.Err? ==> !abort(attempts - 1).NoAbort?)
        && id in metadata && metadata == old(metadata)[id := metadata[id]]
        && id in buckets && buckets == old(buckets)[id := buckets[id]]
        && metadata[id].createdAt == old(CreatedAt(id, now))
        && metadata[id].totalMessages == old(Messages(id)) + if r.Ok? then 1 else 0
    {
      if !config.enabled { return Ok(()), 0.0, 0; }
      var available := OwnTokens(id, now);
      var limit := CalculateEffectiveLimit(id, isColdContact, now);
      var age := Days(metadata[id].createdAt, now);
      LimitNeverFalls(config, age, age, isColdContact);
      r, waitTimeMs, attempts := AcquireScaled(limit as real, available, now, late, abort);
      if r.Ok? {
        var meta := metadata[id];
        metadata := metadata[id := meta.(totalMessages := meta.totalMessages + 1)];
      }
    }
  }

  /** The computation of calculateEffectiveLimit, with the flag it leaves in the metadata. */
  method EffectiveLimit(config: LimiterConfig, meta: Meta, isColdContact: bool, now: real)
    returns (limit: int, isWarmup: bool)
    requires Days(meta.createdAt, now) >= 0.0
    requires !meta.isWarmup ==> Days(meta.createdAt, now) >= config.warmupPeriodDays
    ensures limit == LimitByAge(config, Days(meta.createdAt, now), isColdContact)
    ensures isWarmup <==> meta.isWarmup && Days(meta.createdAt, now) < config.warmupPeriodDays
  {
    isWarmup := meta.isWarmup;
    var effectiveLimit := config.maxMessagesPerMinute;
    if isColdContact {
      effectiveLimit := effectiveLimit * config.coldContactMultiplier;
    }
    if meta.isWarmup {
      var daysSinceCreation := Days(meta.createdAt, now);
      if daysSinceCreation < config.warmupPeriodDays {
        var warmupProgress := daysSinceCreation / config.warmupPeriodDays;
        effectiveLimit := effectiveLimit * (0.3 + warmupProgress * 0.7);
      } else {
        isWarmup := false;
      }
    }
    limit := AtLeastOne(effectiveLimit);
  }

  /** The derived bucket of one acquire call: it can always hold the token asked for, and has it at once
      exactly when that much was available. */
  method AcquireScaled(limit: real, available: real, now: real, late: nat -> real, abort: nat -> TB.Abort)
    returns (r: Result<()>, waitTimeMs: real, attempts: nat)
    requires limit >= 1.0
    requires forall i: nat :: late(i) >= 0.0
    ensures waitTimeMs == 0.0 <==> available >= 1.0
    ensures available < 1.0 ==> waitTimeMs == (1.0 - available) / (limit / 60.0) * 1000.0
    ensures 1 <= attempts <= TB.Ceil(waitTimeMs / 100.0) + 1
    ensures available >= 1.0 ==> r.Ok? && attempts == 1
    ensures r.Err? ==> !abort(attempts - 1).NoAbort?
  {
    ghost var c := TB.Config(limit, limit / 60.0);
    ghost var b := TB.Bucket(TB.Min(available, limit), now);
    var scaled := new TB.TokenBucket(limit, limit / 60.0, Some(TB.Min(available, limit)), now);
    TB.EarnedInTime(c, now, now);
    assert TB.Refilled(c, b, now) == b;
    var wait := scaled.GetWaitTime(1.0, now);
    waitTimeMs := wait.value;
    if available < 1.0 {
      Positive(1.0 - available, limit / 60.0);
    }
    var tried, end;
    r, attempts, tried, end := scaled.Acquire(1.0, now, late, abort);
    if available >= 1.0 {
      TB.WaitTimeIsLeast(c, b, 1.0, now, tried - now);
    }
  }

  lemma Positive(missing: real, rate: real)
    requires missing > 0.0 && rate > 0.0
    ensures missing / rate * 1000.0 > 0.0
  {
    var q := missing / rate;
    assert q * rate == missing;
  }
}
