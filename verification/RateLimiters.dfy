/** The limiter classes, updating their fields in place. A RateLimiterPtr stands for the source's
    owning base-class pointer; calls through it dispatch on the class behind it. */
module RateLimiters {
  import opened Wrappers
  import opened Quotas
  import opened LimiterSpec
  import opened Pacing

  datatype RateLimiterPtr =
    | LinearPtr(linear: LinearRateLimiter)
    | RampingPtr(ramping: LinearRampingRateLimiter)
    | ScheduledPtr(scheduled: ScheduledStartingRateLimiter)
    | BurstingPtr(bursting: BurstingRateLimiter)
    | DelegatingPtr(delegating: DelegatingRateLimiter)
  {
    ghost function Repr(): set<object> {
      match this
      case LinearPtr(l) => {l}
      case RampingPtr(l) => {l}
      case ScheduledPtr(l) => l.Repr
      case BurstingPtr(l) => l.Repr
      case DelegatingPtr(l) => l.Repr
    }

    ghost predicate Valid()
      decreases Repr(), 1
    {
      match this
      case LinearPtr(l) => l.frequency > 0
      case RampingPtr(l) => l.frequency > 0 && l.rampTime > 0
      case ScheduledPtr(l) => l.Valid()
      case BurstingPtr(l) => l.Valid()
      case DelegatingPtr(l) => l.Valid()
    }

    ghost function Model(): (m: Limiter)
      requires Valid()
      reads Repr()
      ensures Configured(m)
      decreases Repr(), 1
    {
      match this
      case LinearPtr(l) => Linear(l.State())
      case RampingPtr(l) => Ramping(l.State())
      case ScheduledPtr(l) => l.Model()
      case BurstingPtr(l) => l.Model()
      case DelegatingPtr(l) => l.Model()
    }

    method TryAcquireOne(now: int) returns (ok: bool)
      requires Valid()
      modifies Repr()
      ensures (Model(), ok) == TryAcquire(old(Model()), now)
      decreases Repr(), 2
    {
      match this
      case LinearPtr(l) => ok := l.TryAcquireOne(now);
      case RampingPtr(l) => ok := l.TryAcquireOne(now);
      case ScheduledPtr(l) => ok := l.TryAcquireOne(now);
      case BurstingPtr(l) =>
        ghost var asked;
        ok, asked := l.TryAcquireOne(now);
      case DelegatingPtr(l) => ok := l.TryAcquireOne(now);
    }

    // Returns whether the call went through; the source throws or asserts otherwise.
    method ReleaseOne(now: int) returns (ok: bool)
      requires Valid()
      modifies Repr()
      ensures (Model(), ok) == Release(old(Model()), now)
      decreases Repr(), 2
    {
      match this
      case LinearPtr(l) => l.ReleaseOne(); ok := true;
      case RampingPtr(l) => l.ReleaseOne(); ok := true;
      case ScheduledPtr(l) => ok := l.ReleaseOne(now);
      case BurstingPtr(l) => ok := l.ReleaseOne();
      case DelegatingPtr(l) => ok := l.ReleaseOne(now);
    }

    method Elapsed(now: int) returns (t: int)
      requires Valid()
      modifies Repr()
      ensures (Model(), t) == ReadElapsed(old(Model()), now)
      decreases Repr(), 2
    {
      match this
      case LinearPtr(l) => t := l.Elapsed(now);
      case RampingPtr(l) => t := l.Elapsed(now);
      case ScheduledPtr(l) => t := l.rateLimiter.Elapsed(now);
      case BurstingPtr(l) => t := l.rateLimiter.Elapsed(now);
      case DelegatingPtr(l) => t := l.rateLimiter.Elapsed(now);
    }
  }

  class LinearRateLimiter {
    const frequency: int
    var startTime: Option<int>
    var acquireableCount: int
    var acquiredCount: int

    constructor (frequency: int)
      ensures this.frequency == frequency && State() == LinearState(frequency, None, 0, 0)
    {
      this.frequency := frequency;
      startTime, acquireableCount, acquiredCount := None, 0, 0;
    }

    function State(): LinearState
      reads this
    {
      LinearState(frequency, startTime, acquireableCount, acquiredCount)
    }

    method Elapsed(now: int) returns (t: int)
      modifies this
      ensures State() == old(State()).(start := Some(StartTime(old(startTime), now)))
      ensures t == now - StartTime(old(startTime), now)
    {
      if startTime.None? { startTime := Some(now); }
      t := now - startTime.value;
    }

    method TryAcquireOne(now: int) returns (ok: bool)
      modifies this
      ensures (State(), ok) == TryLinear(old(State()), now)
      decreases if acquireableCount > 0 then 0 else 1
    {
      if acquireableCount > 0 {
        acquireableCount, acquiredCount := acquireableCount - 1, acquiredCount + 1;
        return true;
      }
      var elapsed := Elapsed(now);
      acquireableCount := LinearQuota(elapsed, frequency) - acquiredCount;
      if acquireableCount > 0 {
        ok := TryAcquireOne(now);
      } else {
        ok := false;
      }
    }

    method ReleaseOne()
      modifies this
      ensures State() == old(State()).(acquireable := old(acquireableCount) + 1, acquired := old(acquiredCount) - 1)
    {
      acquireableCount, acquiredCount := acquireableCount + 1, acquiredCount - 1;
    }
  }

  class LinearRampingRateLimiter {
    const frequency: int
    const rampTime: int
    var startTime: Option<int>
    var acquireableCount: int
    var acquiredCount: int

    constructor (rampTime: int, frequency: int)
      ensures this.frequency == frequency && this.rampTime == rampTime
      ensures State() == RampState(frequency, rampTime, None, 0, 0)
    {
      this.frequency, this.rampTime := frequency, rampTime;
      startTime, acquireableCount, acquiredCount := None, 0, 0;
    }

    function State(): RampState
      reads this
    {
      RampState(frequency, rampTime, startTime, acquireableCount, acquiredCount)
    }

    method Elapsed(now: int) returns (t: int)
      modifies this
      ensures State() == old(State()).(start := Some(StartTime(old(startTime), now)))
      ensures t == now - StartTime(old(startTime), now)
    {
      if startTime.None? { startTime := Some(now); }
      t := now - startTime.value;
    }

    method TryAcquireOne(now: int) returns (ok: bool)
      requires rampTime > 0
      modifies this
      ensures (State(), ok) == TryRamping(old(State()), now)
      decreases if acquireableCount != 0 then 0 else 1
    {
      if acquireableCount != 0 {
        acquireableCount, acquiredCount := acquireableCount - 1, acquiredCount + 1;
        return true;
      }
      var elapsed := Elapsed(now);
      var total := 0;
      if elapsed < rampTime {
        total := RoundDiv(elapsed * elapsed * frequency, 2 * NANOS_PER_SECOND * rampTime);
      } else {
        var rampRequests := RoundDiv(rampTime * frequency, 2 * NANOS_PER_SECOND);
        total := rampRequests + RoundDiv((elapsed - rampTime) * frequency, NANOS_PER_SECOND);
      }
      acquireableCount := total - acquiredCount;
      if acquireableCount > 0 {
        ok := TryAcquireOne(now);
      } else {
        ok := false;
      }
    }

    method ReleaseOne()
      modifies this
      ensures State() == old(State()).(acquireable := old(acquireableCount) + 1, acquired := old(acquiredCount) - 1)
    {
      acquireableCount, acquiredCount := acquireableCount + 1, acquiredCount - 1;
    }
  }

  class ScheduledStartingRateLimiter {
    const rateLimiter: RateLimiterPtr
    const scheduledStartingTime: int
    var acquisitionAttempted: bool
    ghost const Repr: set<object>

    constructor (rateLimiter: RateLimiterPtr, scheduledStartingTime: int)
      requires rateLimiter.Valid()
      ensures Valid() && fresh(Repr - rateLimiter.Repr())
      ensures Model() == Scheduled(ScheduleState(scheduledStartingTime, false), rateLimiter.Model())
    {
      this.rateLimiter, this.scheduledStartingTime := rateLimiter, scheduledStartingTime;
      acquisitionAttempted := false;
      Repr := {this} + rateLimiter.Repr();
    }

    ghost predicate Valid()
      decreases Repr, 0
    {
      this in Repr && this !in rateLimiter.Repr() && rateLimiter.Repr() < Repr && rateLimiter.Valid()
    }

    ghost function Model(): (m: Limiter)
      requires Valid()
      reads Repr
      ensures Configured(m)
      decreases Repr, 0
    {
      Scheduled(ScheduleState(scheduledStartingTime, acquisitionAttempted), rateLimiter.Model())
    }

    method TryAcquireOne(now: int) returns (ok: bool)
      requires Valid()
      modifies Repr
      ensures (Model(), ok) == TryAcquire(old(Model()), now)
      decreases Repr, 1
    {
      if now < scheduledStartingTime {
        acquisitionAttempted := true;
        return false;
      }
      if !acquisitionAttempted {
        acquisitionAttempted := true;
      }
      ok := rateLimiter.TryAcquireOne(now);
    }

    method ReleaseOne(now: int) returns (ok: bool)
      requires Valid()
      modifies Repr
      ensures (Model(), ok) == Release(old(Model()), now)
      decreases Repr, 1
    {
      if now < scheduledStartingTime {
        return false;
      }
      ok := rateLimiter.ReleaseOne(now);
    }
  }

  class BurstingRateLimiter {
    const rateLimiter: RateLimiterPtr
    const burstSize: int
    var accumulated: int
    var releasing: bool
    var previouslyReleasing: Option<bool>
    ghost const Repr: set<object>

    constructor (rateLimiter: RateLimiterPtr, burstSize: int)
      requires rateLimiter.Valid() && burstSize > 0
      ensures Valid() && fresh(Repr - rateLimiter.Repr())
      ensures Model() == Bursting(BurstState(burstSize, 0, false, None), rateLimiter.Model())
    {
      this.rateLimiter, this.burstSize := rateLimiter, burstSize;
      accumulated, releasing, previouslyReleasing := 0, false, None;
      Repr := {this} + rateLimiter.Repr();
    }

    ghost predicate Valid()
      decreases Repr, 0
    {
      && this in Repr && this !in rateLimiter.Repr() && rateLimiter.Repr() < Repr && rateLimiter.Valid()
      && burstSize > 0
    }

    ghost function State(): BurstState
      reads this
    {
      BurstState(burstSize, accumulated, releasing, previouslyReleasing)
    }

    ghost function Model(): (m: Limiter)
      requires Valid()
      reads Repr
      ensures Configured(m)
      decreases Repr, 0
    {
      Bursting(State(), rateLimiter.Model())
    }

    // `asked` counts the calls of the inner limiter.
    method TryAcquireOne(now: int) returns (ok: bool, ghost asked: nat)
      requires Valid()
      modifies Repr
      ensures (Model(), ok) == TryAcquire(old(Model()), now)
      ensures asked == if old(releasing) then 0 else FillCalls(old(rateLimiter.Model()), old(accumulated), burstSize, now)
      decreases Repr, if releasing then 0 else 1
    {
      hide Configured, RateLimiterPtr.Model, RateLimiterPtr.Valid;
      previouslyReleasing := Some(releasing);
      if releasing {
        accumulated := accumulated - 1;
        releasing := accumulated > 0;
        return true, 0;
      }
      ghost var filled := FillBurst(rateLimiter.Model(), accumulated, burstSize, now);
      ghost var calls := FillCalls(rateLimiter.Model(), accumulated, burstSize, now);
      asked := 0;
      while true
        invariant !releasing && previouslyReleasing.Some?
        invariant FillBurst(rateLimiter.Model(), accumulated, burstSize, now) == filled
        invariant asked + FillCalls(rateLimiter.Model(), accumulated, burstSize, now) == calls
        decreases burstSize - accumulated % burstSize
      {
        var granted := rateLimiter.TryAcquireOne(now);
        asked := asked + 1;
        if !granted { break; }
        NextRemainder(accumulated, burstSize);
        accumulated := accumulated + 1;
        if accumulated % burstSize == 0 {
          releasing := true;
          assert rateLimiter.Model() == filled.0 && accumulated == filled.1 && filled.2;
          ghost var more;
          ok, more := TryAcquireOne(now);
          return;
        }
      }
      previouslyReleasing := None;
      ok := false;
    }

    method ReleaseOne() returns (ok: bool)
      requires Valid()
      modifies this
      ensures forall now :: (Model(), ok) == Release(old(Model()), now)
    {
      if !(accumulated < burstSize && previouslyReleasing == Some(true)) {
        return false;
      }
      ReleaseOneUnchecked();
      ok := true;
    }

    // All that is left of the call where debug assertions are compiled out.
    method ReleaseOneUnchecked()
      requires Valid()
      modifies this
      ensures Valid() && Model() == Bursting(ReleaseBurst(old(State())), old(rateLimiter.Model()))
    {
      accumulated := accumulated + 1;
      releasing := true;
      previouslyReleasing := None;
    }
  }

  class DelegatingRateLimiter {
    const rateLimiter: RateLimiterPtr
    const samples: nat -> nat
    var drawn: nat
    var distributedTimings: seq<int>
    var sanityCheckPendingRelease: bool
    ghost const Repr: set<object>

    constructor (rateLimiter: RateLimiterPtr, samples: nat -> nat)
      requires rateLimiter.Valid()
      ensures Valid() && fresh(Repr - rateLimiter.Repr())
      ensures Model() == Delegating(JitterState(samples, 0, [], true), rateLimiter.Model())
    {
      this.rateLimiter, this.samples := rateLimiter, samples;
      drawn, distributedTimings, sanityCheckPendingRelease := 0, [], true;
      Repr := {this} + rateLimiter.Repr();
    }

    ghost predicate Valid()
      decreases Repr, 0
    {
      this in Repr && this !in rateLimiter.Repr() && rateLimiter.Repr() < Repr && rateLimiter.Valid()
    }

    ghost function State(): JitterState
      reads this
    {
      JitterState(samples, drawn, distributedTimings, sanityCheckPendingRelease)
    }

    ghost function Model(): (m: Limiter)
      requires Valid()
      reads Repr
      ensures Configured(m)
      decreases Repr, 0
    {
      Delegating(State(), rateLimiter.Model())
    }

    method TryAcquireOne(now: int) returns (ok: bool)
      requires Valid()
      modifies Repr
      ensures (Model(), ok) == TryAcquire(old(Model()), now)
      ensures Inv(old(Model()), now) && !ok ==> forall x | x in distributedTimings :: x > now
      decreases Repr, 1
    {
      hide Configured, InsertTiming, RateLimiterPtr.Model, Inv;
      if Inv(Model(), now) { JitterGrantsIffDue(Model(), now); }
      var granted := rateLimiter.TryAcquireOne(now);
      if granted {
        var adjusted := now + samples(drawn);
        drawn := drawn + 1;
        distributedTimings := InsertTiming(distributedTimings, adjusted);
      }
      if distributedTimings != [] && distributedTimings[0] <= now {
        distributedTimings := distributedTimings[1..];
        sanityCheckPendingRelease := false;
        return true;
      }
      ok := false;
    }

    method ReleaseOne(now: int) returns (ok: bool)
      requires Valid()
      modifies Repr
      ensures (Model(), ok) == Release(old(Model()), now)
      decreases Repr, 1
    {
      if sanityCheckPendingRelease {
        return false;
      }
      sanityCheckPendingRelease := true;
      ok := rateLimiter.ReleaseOne(now);
    }
  }

  /** The limiter part of SequencerFactoryImpl::create: wrap by reassigning one pointer. */
  method CreateRateLimiter(options: PacingOptions, scheduledStart: int, samples: nat -> nat)
    returns (r: Result<RateLimiterPtr, FactoryError>)
    ensures r.Failure? ==> FactoryStack(options, scheduledStart, samples) == Failure(r.error)
    ensures r.Success? ==> r.value.Valid() && fresh(r.value.Repr())
    ensures r.Success? ==> FactoryStack(options, scheduledStart, samples) == Success(r.value.Model())
  {
    if options.rampTime.Some? {
      if options.rampTime.value <= 0 {
        return Failure(BadRampTime);
      }
      if options.duration.Some? && options.rampTime.value > options.duration.value {
        return Failure(RampExceedsDuration);
      }
      if options.rps == 0 {
        return Failure(BadFrequency);
      }
      var plugin := new LinearRampingRateLimiter(options.rampTime.value, options.rps);
      var scheduled := new ScheduledStartingRateLimiter(RampingPtr(plugin), scheduledStart);
      return Success(ScheduledPtr(scheduled));
    }
    if options.rps == 0 {
      return Failure(BadFrequency);
    }
    var linear := new LinearRateLimiter(options.rps);
    var scheduled := new ScheduledStartingRateLimiter(LinearPtr(linear), scheduledStart);
    var rateLimiter := ScheduledPtr(scheduled);
    if options.burst > 0 {
      var bursting := new BurstingRateLimiter(rateLimiter, options.burst);
      rateLimiter := BurstingPtr(bursting);
    }
    if options.jitter > 0 {
      var delegating := new DelegatingRateLimiter(rateLimiter, samples);
      rateLimiter := DelegatingPtr(delegating);
    }
    return Success(rateLimiter);
  }
}
