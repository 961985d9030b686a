/** The stacks the factory builds, in whatever state: when their clock starts, and what the options
    and the time alone allow. */
module FactoryPacing {
  import opened Wrappers
  import opened Quotas
  import opened LimiterSpec
  import opened Pacing

  // ---------- When the clock starts ----------

  lemma {:induction false} InitialIsBlank(l: Limiter)
    requires Initial(l)
    ensures Blank(l) == l && ClockStart(l).None?
  {
    match l
    case Linear(_) =>
    case Ramping(_) =>
    case Scheduled(_, inner) => InitialIsBlank(inner);
    case Bursting(_, inner) => InitialIsBlank(inner);
    case Delegating(_, inner) => InitialIsBlank(inner);
  }

  // Some layer holds every attempt back until t.
  predicate Gated(l: Limiter, t: int) {
    match l
    case Linear(_) => false
    case Ramping(_) => false
    case Scheduled(s, inner) => s.startAt >= t || Gated(inner, t)
    case Bursting(_, inner) => Gated(inner, t)
    case Delegating(_, inner) => Gated(inner, t)
  }

  predicate ClockFrom(l: Limiter, t: int) {
    ClockStart(l).Some? ==> ClockStart(l).value >= t
  }

  /** Attempts start the clock of a stack with a scheduled start no sooner than that. */
  lemma {:induction false} TryKeepsClock(l: Limiter, now: int, t: int)
    requires Configured(l) && ClockFrom(l, t) && (t <= now || Gated(l, t))
    ensures ClockFrom(TryAcquire(l, now).0, t) && Gated(TryAcquire(l, now).0, t) == Gated(l, t)
    decreases Height(l), 0, 0
  {
    match l
    case Linear(_) =>
    case Ramping(_) =>
    case Scheduled(s, inner) => if s.startAt <= now { TryKeepsClock(inner, now, t); }
    case Bursting(s, inner) => FillKeepsClock(inner, s.accumulated, s.size, now, t);
    case Delegating(_, inner) => TryKeepsClock(inner, now, t);
  }

  lemma {:induction false} FillKeepsClock(inner: Limiter, accumulated: int, size: int, now: int, t: int)
    requires Configured(inner) && size > 0 && ClockFrom(inner, t) && (t <= now || Gated(inner, t))
    ensures var inner' := FillBurst(inner, accumulated, size, now).0; ClockFrom(inner', t) && Gated(inner', t) == Gated(inner, t)
    decreases Height(inner), 1, size - accumulated % size
  {
    TryKeepsClock(inner, now, t);
    var (inner', ok) := TryAcquire(inner, now);
    NextRemainder(accumulated, size);
    if ok && (accumulated + 1) % size != 0 {
      FillKeepsClock(inner', accumulated + 1, size, now, t);
    }
  }

  lemma {:induction false} BlankIsGated(l: Limiter, t: int)
    ensures Gated(Blank(l), t) == Gated(l, t)
  {
    match l
    case Linear(_) =>
    case Ramping(_) =>
    case Scheduled(_, inner) => BlankIsGated(inner, t);
    case Bursting(_, inner) => BlankIsGated(inner, t);
    case Delegating(_, inner) => BlankIsGated(inner, t);
  }

  lemma SameGates(l: Limiter, l': Limiter, t: int)
    requires Blank(l) == Blank(l')
    ensures Gated(l, t) == Gated(l', t)
  {
    BlankIsGated(l, t);
    BlankIsGated(l', t);
  }

  lemma {:induction false} GatesOpenForGood(l: Limiter, t: int, later: int)
    requires !Gated(l, t) && t <= later
    ensures !Gated(l, later)
  {
    match l
    case Linear(_) =>
    case Ramping(_) =>
    case Scheduled(_, inner) => GatesOpenForGood(inner, t, later);
    case Bursting(_, inner) => GatesOpenForGood(inner, t, later);
    case Delegating(_, inner) => GatesOpenForGood(inner, t, later);
  }

  // Nothing has been handed out on a clock that never started.
  lemma {:induction false} PermitsNeedAClock(l: Limiter, now: int)
    requires Inv(l, now) && ClockStart(l).None?
    ensures Net(l) <= 0 && (l.Linear? ==> l.linear.acquireable == 0) && (l.Ramping? ==> l.ramp.acquireable == 0)
  {
    hide LinearQuota, RampQuota;
    match l
    case Linear(s) => QuotasStartAtZero(s.hz, 1);
    case Ramping(s) => QuotasStartAtZero(s.hz, s.rampTime);
    case Scheduled(_, inner) => PermitsNeedAClock(inner, now);
    case Bursting(_, inner) => PermitsNeedAClock(inner, now);
    case Delegating(_, inner) => PermitsNeedAClock(inner, now);
  }

  // The clock after an attempt at `now`: started by the first one that no scheduled start holds back.
  function ClockAfter(l: Limiter, now: int): Option<int> {
    if Gated(l, now + 1) || ClockStart(l).Some? then ClockStart(l) else Some(now)
  }

  /** Which attempt starts the clock: the first one at or after every scheduled start in the stack, at its
      own time; no other attempt touches it. */
  lemma {:induction false} FirstOpenAttemptStartsClock(l: Limiter, now: int)
    requires Inv(l, now)
    ensures ClockStart(TryAcquire(l, now).0) == ClockAfter(l, now)
    decreases Height(l), 0, 0
  {
    hide LinearQuota, RampQuota;
    if ClockStart(l).None? { PermitsNeedAClock(l, now); }
    match l
    case Linear(_) =>
    case Ramping(_) =>
    case Scheduled(s, inner) => if s.startAt <= now { FirstOpenAttemptStartsClock(inner, now); }
    case Bursting(s, inner) =>
      if s.releasing {
        if ClockStart(inner).None? { PermitsNeedAClock(inner, now); }
      } else {
        FillStartsClock(inner, s.accumulated, s.size, now);
      }
    case Delegating(_, inner) => FirstOpenAttemptStartsClock(inner, now);
  }

  lemma {:induction false} FillStartsClock(inner: Limiter, accumulated: int, size: int, now: int)
    requires Inv(inner, now) && size > 0
    ensures ClockStart(FillBurst(inner, accumulated, size, now).0) == ClockAfter(inner, now)
    decreases Height(inner), 1, size - accumulated % size
  {
    FirstOpenAttemptStartsClock(inner, now);
    TryKeepsInv(inner, now);
    TryKeepsBlank(inner, now);
    var (inner', ok) := TryAcquire(inner, now);
    SameGates(inner, inner', now + 1);
    NextRemainder(accumulated, size);
    if ok && (accumulated + 1) % size != 0 {
      FillStartsClock(inner', accumulated + 1, size, now);
    }
  }

  // ---------- The quota of a configuration ----------

  // What the options allow by `now` to a stack whose clock started at `clock`.
  function FactoryQuota(o: PacingOptions, startAt: int, clock: int, now: int): int
    requires o.rampTime.Some? ==> o.rampTime.value > 0
  {
    var due :=
      if now < startAt then 0
      else if o.rampTime.Some? then RampQuota(now - clock, o.rampTime.value, o.rps)
      else LinearQuota(now - clock, o.rps);
    if o.rampTime.None? && o.burst > 0 then o.burst * (due / o.burst) else due
  }

  // In whatever state, the stack that the factory builds from these options.
  ghost predicate BuiltFrom(l: Limiter, o: PacingOptions, startAt: int, samples: nat -> nat) {
    FactoryStack(o, startAt, samples) == Success(Blank(l))
  }

  lemma FactoryQuotaIsQuota(l: Limiter, o: PacingOptions, startAt: int, samples: nat -> nat, now: int)
    requires Configured(l) && BuiltFrom(l, o, startAt, samples)
    ensures o.rampTime.Some? ==> o.rampTime.value > 0
    ensures Quota(l, now) == FactoryQuota(o, startAt, StartTime(ClockStart(l), now), now)
    ensures Gated(l, startAt) && (o.rampTime.Some? || o.jitter == 0 ==> Eager(l))
  {
    hide LinearQuota, RampQuota;
    var bursted := if o.rampTime.None? && o.jitter > 0 then l.inner else l;
    assert o.rampTime.None? && o.jitter > 0 ==> Blank(l.inner) == Blank(l).inner;
    var base := if o.rampTime.None? && o.burst > 0 then bursted.inner else bursted;
    assert o.rampTime.None? && o.burst > 0 ==> Blank(bursted.inner) == Blank(bursted).inner;
    assert Blank(base.inner) == Blank(base).inner;
    GateQuota(base, startAt, now);
    assert ClockStart(bursted) == ClockStart(base) && Gated(bursted, startAt) && Eager(bursted);
    assert o.rampTime.None? && o.burst > 0 ==> Quota(bursted, now) == o.burst * (Quota(base, now) / o.burst);
  }

  // The factory's only scheduled start is the worker's.
  lemma FactoryGate(l: Limiter, o: PacingOptions, startAt: int, samples: nat -> nat, t: int)
    requires BuiltFrom(l, o, startAt, samples)
    ensures Gated(l, t) <==> t <= startAt
  {
    BlankIsGated(l, t);
    hide Blank;
    var base := if o.rampTime.Some? then Blank(l)
                else if o.jitter > 0 && o.burst > 0 then Blank(l).inner.inner
                else if o.jitter > 0 || o.burst > 0 then Blank(l).inner else Blank(l);
    assert Gated(base, t) <==> t <= startAt;
  }

  // A scheduled start over a base limiter.
  lemma GateQuota(l: Limiter, startAt: int, now: int)
    requires Configured(l) && l.Scheduled? && l.schedule.startAt == startAt && (l.inner.Linear? || l.inner.Ramping?)
    ensures var clock := StartTime(ClockStart(l), now);
            Quota(l, now) == if now < startAt then 0
                             else if l.inner.Linear? then LinearQuota(now - clock, l.inner.linear.hz)
                             else RampQuota(now - clock, l.inner.ramp.rampTime, l.inner.ramp.hz)
    ensures Gated(l, startAt) && Eager(l)
  {
    hide LinearQuota, RampQuota;
    assert ClockStart(l) == ClockStart(l.inner) && Eager(l.inner);
  }

  /** The later the clock started, the less is allowed. */
  lemma LaterClockAllowsLess(o: PacingOptions, startAt: int, clock: int, later: int, now: int)
    requires (o.rampTime.Some? ==> o.rampTime.value > 0) && clock <= later <= now
    ensures FactoryQuota(o, startAt, later, now) <= FactoryQuota(o, startAt, clock, now)
  {
    hide LinearQuota, RampQuota;
    if o.rampTime.Some? {
      RampQuotaIsMonotone(now - later, now - clock, o.rampTime.value, o.rps);
    } else {
      LinearQuotaIsMonotone(now - later, now - clock, o.rps);
      if startAt <= now && o.burst > 0 {
        var a, b, size := LinearQuota(now - later, o.rps), LinearQuota(now - clock, o.rps), o.burst;
        assert size * (a / size) <= a < size * (a / size) + size && b < size * (b / size) + size;
        if b / size < a / size { MulLe(b / size + 1, a / size, size); }
        MulLe(a / size, b / size, size);
      }
    }
  }

  /** End to end for the limiters: whatever happened before, a stack that the factory built has handed
      out no permit before its scheduled start, and never more than the options allow since its clock
      started; without jitter a refusal means that bound is met exactly. */
  lemma FactoryStackPaces(l: Limiter, o: PacingOptions, startAt: int, samples: nat -> nat, now: int)
    requires Inv(l, now) && BuiltFrom(l, o, startAt, samples)
    ensures o.rampTime.Some? ==> o.rampTime.value > 0
    ensures var allowed := FactoryQuota(o, startAt, StartTime(ClockStart(l), now), now);
            && 0 <= Net(l) <= allowed && (now < startAt ==> allowed == 0)
            && (o.rampTime.Some? || o.jitter == 0 ==> (TryAcquire(l, now).1 <==> Net(l) < allowed))
  {
    FactoryQuotaIsQuota(l, o, startAt, samples, now);
    hide BuiltFrom, FactoryStack, LinearQuota, RampQuota;
    NetWithinQuota(l, now);
    if o.rampTime.Some? || o.jitter == 0 { GrantsIffBelowQuota(l, now); }
  }

  /** By the options and the time alone: as long as the clock did not start early, what is out is within
      the quota since the scheduled start. */
  lemma FactoryStackIsOnSchedule(l: Limiter, o: PacingOptions, startAt: int, samples: nat -> nat, now: int)
    requires Inv(l, now) && BuiltFrom(l, o, startAt, samples) && ClockFrom(l, startAt)
    ensures o.rampTime.Some? ==> o.rampTime.value > 0
    ensures Net(l) <= FactoryQuota(o, startAt, startAt, now)
  {
    FactoryStackPaces(l, o, startAt, samples, now);
    hide BuiltFrom, FactoryStack, TryAcquire;
    if startAt <= now {
      ClockNotAhead(l, now);
      LaterClockAllowsLess(o, startAt, startAt, StartTime(ClockStart(l), now), now);
    }
  }

  lemma {:induction false} ClockNotAhead(l: Limiter, now: int)
    requires Inv(l, now)
    ensures StartTime(ClockStart(l), now) <= now
  {
    match l
    case Linear(_) =>
    case Ramping(_) =>
    case Scheduled(_, inner) => ClockNotAhead(inner, now);
    case Bursting(_, inner) => ClockNotAhead(inner, now);
    case Delegating(_, inner) => ClockNotAhead(inner, now);
  }
}
