/** What holds of every stack of limiters in every run: permits are conserved, the permits out stay
    within a quota that depends on the time alone, and a stack without jitter decides exactly by
    that quota, as if it had no memory. */
module Pacing {
  import opened Wrappers
  import opened Quotas
  import opened LimiterSpec

  // The most a stack may have handed out by `now`: no counters, only configuration and clock.
  function Quota(l: Limiter, now: int): int
    requires Configured(l)
  {
    match l
    case Linear(s) => LinearQuota(now - StartTime(s.start, now), s.hz)
    case Ramping(s) => RampQuota(now - StartTime(s.start, now), s.rampTime, s.hz)
    case Scheduled(s, inner) => if now < s.startAt then 0 else Quota(inner, now)
    case Bursting(s, inner) => s.size * (Quota(inner, now) / s.size)
    case Delegating(_, inner) => Quota(inner, now)
  }

  ghost predicate CountersInv(start: Option<int>, acquireable: int, acquired: int, quota: int, now: int) {
    && acquireable >= 0 && acquired >= 0
    && acquired + acquireable <= quota
    && (start.Some? ==> start.value <= now)
  }

  // `out` is Net of the wrapped limiter.
  ghost predicate BurstInv(s: BurstState, out: int) {
    && out >= s.accumulated
    && (if s.releasing then 0 < s.accumulated <= s.size && out % s.size == 0
        else 0 <= s.accumulated < s.size && (out - s.accumulated) % s.size == 0)
    && (s.previouslyReleasing == Some(true) ==>
          s.accumulated < s.size && out % s.size == 0 && out > s.accumulated)
  }

  ghost predicate JitterInv(s: JitterState, out: int) {
    && Ascending(s.timings)
    && out >= |s.timings|
    && (!s.pendingRelease ==> out > |s.timings|)
  }

  ghost predicate Inv(l: Limiter, now: int) {
    && Configured(l)
    && match l
       case Linear(s) => CountersInv(s.start, s.acquireable, s.acquired, Quota(l, now), now)
       case Ramping(s) => CountersInv(s.start, s.acquireable, s.acquired, Quota(l, now), now)
       case Scheduled(s, inner) => Inv(inner, now) && (now < s.startAt ==> Net(inner) == 0)
       case Bursting(s, inner) => Inv(inner, now) && BurstInv(s, Net(inner))
       case Delegating(s, inner) => Inv(inner, now) && JitterInv(s, Net(inner))
  }

  // A stack as its constructors leave it.
  predicate Initial(l: Limiter) {
    && Configured(l)
    && match l
       case Linear(s) => s.start.None? && s.acquireable == 0 && s.acquired == 0
       case Ramping(s) => s.start.None? && s.acquireable == 0 && s.acquired == 0
       case Scheduled(s, inner) => Initial(inner) && !s.attempted
       case Bursting(s, inner) => Initial(inner) && s.accumulated == 0 && !s.releasing && s.previouslyReleasing.None?
       case Delegating(s, inner) => Initial(inner) && s.drawn == 0 && s.timings == [] && s.pendingRelease
  }

  lemma {:induction false} InitialIsInv(l: Limiter, now: int)
    requires Initial(l)
    ensures Inv(l, now) && Net(l) == 0
  {
    hide LinearQuota, RampQuota, RoundDiv;
    match l
    case Linear(s) => QuotasStartAtZero(s.hz, 1);
    case Ramping(s) => QuotasStartAtZero(s.hz, s.rampTime);
    case Scheduled(_, inner) => InitialIsInv(inner, now);
    case Bursting(s, inner) => InitialIsInv(inner, now); RemainderIsUnique(0, s.size, 0, 0);
    case Delegating(_, inner) => InitialIsInv(inner, now);
  }

  /** Time alone breaks nothing. */
  lemma {:induction false} InvOutlastsTime(l: Limiter, now: int, later: int)
    requires Inv(l, now) && now <= later
    ensures Inv(l, later)
  {
    match l
    case Linear(s) => LinearQuotaIsMonotone(now - StartTime(s.start, now), later - StartTime(s.start, later), s.hz);
    case Ramping(s) => RampQuotaIsMonotone(now - StartTime(s.start, now), later - StartTime(s.start, later), s.rampTime, s.hz);
    case Scheduled(_, inner) => InvOutlastsTime(inner, now, later);
    case Bursting(_, inner) => InvOutlastsTime(inner, now, later);
    case Delegating(_, inner) => InvOutlastsTime(inner, now, later);
  }

  /** The permits out never exceed the quota, for any stack. */
  lemma {:induction false} NetWithinQuota(l: Limiter, now: int)
    requires Inv(l, now)
    ensures 0 <= Net(l) <= Quota(l, now)
  {
    match l
    case Linear(_) =>
    case Ramping(_) =>
    case Scheduled(_, inner) => NetWithinQuota(inner, now);
    case Bursting(s, inner) =>
      NetWithinQuota(inner, now);
      MultiplesBelow(if s.releasing then Net(inner) else Net(l), s.size, Quota(inner, now));
    case Delegating(_, inner) => NetWithinQuota(inner, now);
  }

  lemma {:induction false} InsertTimingAddsOne(ts: seq<int>, x: int)
    ensures multiset(InsertTiming(ts, x)) == multiset(ts) + multiset{x}
  {
    if ts != [] && ts[0] <= x {
      assert ts == [ts[0]] + ts[1..];
      InsertTimingAddsOne(ts[1..], x);
    }
  }

  lemma {:induction false} InsertTimingSorts(ts: seq<int>, x: int, low: int)
    requires Ascending(ts) && low <= x && forall i :: 0 <= i < |ts| ==> low <= ts[i]
    ensures Ascending(InsertTiming(ts, x)) && forall i :: 0 <= i < |ts| + 1 ==> low <= InsertTiming(ts, x)[i]
  {
    if ts != [] && ts[0] <= x {
      InsertTimingSorts(ts[1..], x, ts[0]);
    }
  }

  lemma InsertTimingKeeps(ts: seq<int>, x: int)
    ensures multiset(InsertTiming(ts, x)) == multiset(ts) + multiset{x}
    ensures Ascending(ts) ==> Ascending(InsertTiming(ts, x))
  {
    InsertTimingAddsOne(ts, x);
    if Ascending(ts) {
      InsertTimingSorts(ts, x, if ts == [] || x < ts[0] then x else ts[0]);
    }
  }

  lemma TryJitterKeepsInv(s: JitterState, now: int, out: int, ok: bool)
    requires JitterInv(s, out)
    ensures JitterInv(TryJitter(s, ok, now).0, out + if ok then 1 else 0)
  {
    if ok { InsertTimingKeeps(s.timings, now + s.samples(s.drawn)); }
  }

  /** Every attempt keeps the invariant and leaves the quota alone, whatever the stack. */
  lemma {:induction false} TryKeepsInv(l: Limiter, now: int)
    requires Inv(l, now)
    ensures var (l', _) := TryAcquire(l, now); Inv(l', now) && Quota(l', now) == Quota(l, now)
    decreases Height(l), 0, 0
  {
    match l
    case Linear(_) =>
    case Ramping(_) =>
    case Scheduled(s, inner) =>
      TryKeepsInv(inner, now);
    case Bursting(s, inner) =>
      NetWithinQuota(l, now);
      if s.releasing {
        TakingKeepsBurstInv(s, s.accumulated, Net(inner));
      } else {
        FillKeepsInv(inner, s.accumulated, s.size, now);
        var (inner', total, full) := FillBurst(inner, s.accumulated, s.size, now);
        if full { TakingKeepsBurstInv(s, total, Net(inner')); }
      }
    case Delegating(s, inner) =>
      TryKeepsInv(inner, now);
      TryConserves(inner, now);
      TryJitterKeepsInv(s, now, Net(inner), TryAcquire(inner, now).1);
  }

  lemma TakingKeepsBurstInv(s: BurstState, held: int, out: int)
    requires s.size > 0 && 0 < held <= s.size && held <= out && out % s.size == 0
    ensures BurstInv(TakeFromBurst(s, held), out)
  {
  }

  lemma {:induction false} FillKeepsInv(inner: Limiter, accumulated: int, size: int, now: int)
    requires Inv(inner, now) && 0 <= accumulated < size
    requires accumulated <= Net(inner) && (Net(inner) - accumulated) % size == 0
    ensures var (inner', total, full) := FillBurst(inner, accumulated, size, now);
            && Inv(inner', now) && Quota(inner', now) == Quota(inner, now)
            && Net(inner') - total == Net(inner) - accumulated
            && (if full then total == size && Net(inner') % size == 0 else accumulated <= total < size)
    decreases Height(inner), 1, size - accumulated % size
  {
    TryKeepsInv(inner, now);
    TryConserves(inner, now);
    var (inner', ok) := TryAcquire(inner, now);
    RemainderIsUnique(accumulated, size, 0, accumulated);
    NextRemainder(accumulated, size);
    if ok && accumulated + 1 < size {
      FillKeepsInv(inner', accumulated + 1, size, now);
    } else if ok {
      MultipleIsFixed(Net(inner) - accumulated, size);
    }
  }

  /** Where assertions are compiled out a burst takes back any permit. That keeps the bursts whole exactly
      while it is releasing and not full, or has nothing accumulated; otherwise a partial accumulation
      turns into a burst, and the next attempts are granted from it without asking the inner limiter. */
  lemma UncheckedReleaseKeepsBurstsIff(s: BurstState, out: int)
    requires s.size > 0 && BurstInv(s, out) && out > s.accumulated
    ensures BurstInv(ReleaseBurst(s), out) <==> if s.releasing then s.accumulated < s.size else s.accumulated == 0
  {
    if !s.releasing && s.accumulated > 0 {
      MultipleIsFixed(out - s.accumulated, s.size);
      RemainderIsUnique(out, s.size, (out - s.accumulated) / s.size, s.accumulated);
    }
  }

  /** Giving back a held permit keeps the invariant, even when a layer rejects the call. */
  lemma {:induction false} ReleaseKeepsInv(l: Limiter, now: int)
    requires Inv(l, now) && Net(l) > 0
    ensures var (l', _) := Release(l, now); Inv(l', now) && Quota(l', now) == Quota(l, now)
  {
    match l
    case Linear(_) =>
    case Ramping(_) =>
    case Scheduled(_, inner) => ReleaseKeepsInv(inner, now); ReleaseConserves(inner, now);
    case Bursting(_, _) =>
    case Delegating(s, inner) => ReleaseKeepsInv(inner, now); ReleaseConserves(inner, now);
  }

  lemma {:induction false} ReadElapsedKeepsInv(l: Limiter, now: int)
    requires Inv(l, now)
    ensures var (l', t) := ReadElapsed(l, now);
            Inv(l', now) && Quota(l', now) == Quota(l, now) && Net(l') == Net(l) && t >= 0
  {
    match l
    case Linear(_) =>
    case Ramping(_) =>
    case Scheduled(_, inner) => ReadElapsedKeepsInv(inner, now);
    case Bursting(_, inner) => ReadElapsedKeepsInv(inner, now);
    case Delegating(_, inner) => ReadElapsedKeepsInv(inner, now);
  }

  // ---------- The decision, without memory ----------

  // No jitter anywhere in the stack.
  predicate Eager(l: Limiter) {
    match l
    case Linear(_) => true
    case Ramping(_) => true
    case Scheduled(_, inner) => Eager(inner)
    case Bursting(_, inner) => Eager(inner)
    case Delegating(_, _) => false
  }

  /** The cached counts, the burst modes and the greedy refill together amount to one memoryless
      rule: a permit is granted exactly when the permits out are below the quota. */
  lemma {:induction false} GrantsIffBelowQuota(l: Limiter, now: int)
    requires Inv(l, now) && Eager(l)
    ensures var (l', ok) := TryAcquire(l, now); Eager(l') && (ok <==> Net(l) < Quota(l, now))
    decreases Height(l), 0, 0
  {
    match l
    case Linear(_) =>
    case Ramping(_) =>
    case Scheduled(s, inner) =>
      GrantsIffBelowQuota(inner, now);
    case Bursting(s, inner) =>
      NetWithinQuota(inner, now);
      MultiplesBelow(if s.releasing then Net(inner) else Net(l), s.size, Quota(inner, now));
      if !s.releasing {
        FillsIffRoom(inner, s.accumulated, s.size, now);
      }
  }

  lemma {:induction false} FillsIffRoom(inner: Limiter, accumulated: int, size: int, now: int)
    requires Inv(inner, now) && Eager(inner) && 0 <= accumulated < size
    ensures var (inner', total, full) := FillBurst(inner, accumulated, size, now);
            Eager(inner') && (full <==> Net(inner) + (size - accumulated) <= Quota(inner, now))
    decreases Height(inner), 1, size - accumulated % size
  {
    GrantsIffBelowQuota(inner, now);
    TryKeepsInv(inner, now);
    TryConserves(inner, now);
    NetWithinQuota(inner, now);
    var (inner', ok) := TryAcquire(inner, now);
    RemainderIsUnique(accumulated, size, 0, accumulated);
    NextRemainder(accumulated, size);
    if ok && accumulated + 1 < size {
      FillsIffRoom(inner', accumulated + 1, size, now);
    }
  }

  // ---------- Giving a permit back ----------

  // Layers whose release works at any time a permit is out.
  predicate FreelyReleasable(l: Limiter) {
    match l
    case Linear(_) => true
    case Ramping(_) => true
    case Scheduled(_, inner) => FreelyReleasable(inner)
    case Bursting(_, _) => false
    case Delegating(_, _) => false
  }

  // Jitter forwards a release to its inner limiter; a burst does not.
  predicate ReleaseSafe(l: Limiter) {
    match l
    case Linear(_) => true
    case Ramping(_) => true
    case Scheduled(_, inner) => ReleaseSafe(inner)
    case Bursting(_, _) => true
    case Delegating(_, inner) => FreelyReleasable(inner)
  }

  lemma {:induction false} FreeReleaseIsAccepted(l: Limiter, now: int)
    requires Inv(l, now) && FreelyReleasable(l) && Net(l) > 0
    ensures Release(l, now).1
  {
    match l
    case Linear(_) =>
    case Ramping(_) =>
    case Scheduled(_, inner) => FreeReleaseIsAccepted(inner, now);
  }

  lemma {:induction false} ShapeOfBlank(l: Limiter)
    ensures Configured(Blank(l)) == Configured(l) && Eager(Blank(l)) == Eager(l)
    ensures FreelyReleasable(Blank(l)) == FreelyReleasable(l) && ReleaseSafe(Blank(l)) == ReleaseSafe(l)
  {
    match l
    case Linear(_) =>
    case Ramping(_) =>
    case Scheduled(_, inner) => ShapeOfBlank(inner);
    case Bursting(_, inner) => ShapeOfBlank(inner);
    case Delegating(_, inner) => ShapeOfBlank(inner);
  }

  lemma SameShape(l: Limiter, l': Limiter)
    requires Blank(l) == Blank(l')
    ensures FreelyReleasable(l) == FreelyReleasable(l') && ReleaseSafe(l) == ReleaseSafe(l') && Eager(l) == Eager(l')
  {
    hide Blank, FreelyReleasable, ReleaseSafe, Eager, Configured;
    ShapeOfBlank(l);
    ShapeOfBlank(l');
  }

  /** A permit that was just granted can always be given back, and giving it back leaves the stack
      where it was: same permits out, same quota. Holds unless jitter sits on a burst or on jitter. */
  lemma {:induction false} GrantCanBeReleased(l: Limiter, now: int)
    requires Inv(l, now) && ReleaseSafe(l) && TryAcquire(l, now).1
    ensures var l' := TryAcquire(l, now).0;
            var (l'', accepted) := Release(l', now);
            accepted && Inv(l'', now) && Net(l'') == Net(l) && Quota(l'', now) == Quota(l, now)
  {
    TryKeepsInv(l, now);
    TryConserves(l, now);
    NetWithinQuota(l, now);
    var l' := TryAcquire(l, now).0;
    ReleaseKeepsInv(l', now);
    ReleaseConserves(l', now);
    match l
    case Linear(_) =>
    case Ramping(_) =>
    case Scheduled(_, inner) => GrantCanBeReleased(inner, now);
    case Bursting(s, inner) =>
    case Delegating(s, inner) =>
      TryKeepsBlank(inner, now);
      SameShape(inner, l'.inner);
      FreeReleaseIsAccepted(l'.inner, now);
  }

  // A layer that keeps track of whether there is a permit to give back.
  predicate HoldsBack(l: Limiter) {
    match l
    case Linear(_) => false
    case Ramping(_) => false
    case Scheduled(_, inner) => HoldsBack(inner)
    case Bursting(_, _) => true
    case Delegating(_, _) => true
  }

  /** Bursts and jitter take back one permit per grant: never a first one before a grant, never a second one
      after it, however much later. A scheduled start takes nothing back before its time. */
  lemma {:induction false} ReleaseNeedsAGrant(l: Limiter, now: int, later: int)
    ensures Initial(l) && HoldsBack(l) ==> !Release(l, now).1
    ensures HoldsBack(l) && Release(l, now).1 ==> !Release(Release(l, now).0, later).1
    ensures l.Scheduled? && now < l.schedule.startAt ==> Release(l, now) == (l, false)
  {
    if l.Scheduled? { ReleaseNeedsAGrant(l.inner, now, later); }
  }

  // With jitter over a burst the release is the burst's to accept, which it does right after its own grant.
  lemma ReleaseFollowsBurst(l: Limiter, now: int)
    requires Inv(l, now) && l.Delegating? && l.inner.Bursting?
    requires TryAcquire(l, now).1
    ensures Release(TryAcquire(l, now).0, now).1 <==> TryAcquire(l.inner, now).1
  {
    TryKeepsInv(l.inner, now);
    var l' := TryAcquire(l, now).0;
    assert l'.inner == TryAcquire(l.inner, now).0;
  }

  /** With jitter over a burst a grant may come from the waiting list while the burst refuses; the
      release then trips the burst's assertion. Before the attempt the counters and the clock tell: it
      will be accepted exactly when the burst has handed out less than its quota. */
  lemma JitterOverBurstRelease(l: Limiter, now: int)
    requires Inv(l, now) && l.Delegating? && l.inner.Bursting? && Eager(l.inner)
    requires TryAcquire(l, now).1
    ensures Release(TryAcquire(l, now).0, now).1 <==> Net(l.inner) < Quota(l.inner, now)
  {
    hide TryAcquire, Release, Inv, Quota, Net;
    ReleaseFollowsBurst(l, now);
    assert Inv(l.inner, now) by { InnerInv(l, now); }
    GrantsIffBelowQuota(l.inner, now);
  }

  lemma InnerInv(l: Limiter, now: int)
    requires Inv(l, now) && !l.Linear? && !l.Ramping?
    ensures Inv(l.inner, now)
  {
  }

  lemma TryBurstOfOne(s: LinearState, previously: Option<bool>, now: int)
    requires s.hz > 0
    ensures var (s', ok) := TryLinear(s, now);
            TryAcquire(Bursting(BurstState(1, 0, false, previously), Linear(s)), now) ==
            (Bursting(BurstState(1, 0, false, if ok then Some(true) else None), Linear(s')), ok)
  {
    var (s', ok) := TryLinear(s, now);
    assert TryAcquire(Linear(s), now) == (Linear(s'), ok);
    assert FillBurst(Linear(s), 0, 1, now) == (Linear(s'), if ok then 1 else 0, ok);
  }

  lemma TryJitteredBurst(j: JitterState, s: LinearState, previously: Option<bool>, now: int)
    requires s.hz > 0
    ensures var (s', ok) := TryLinear(s, now);
            var (j', served) := TryJitter(j, ok, now);
            TryAcquire(Delegating(j, Bursting(BurstState(1, 0, false, previously), Linear(s))), now) ==
            (Delegating(j', Bursting(BurstState(1, 0, false, if ok then Some(true) else None), Linear(s'))), served)
  {
    TryBurstOfOne(s, previously, now);
  }

  lemma HalfSecondQuotas(t: int, d: int)
    requires 2 * t == NANOS_PER_SECOND && 0 <= d < NANOS_PER_SECOND
    ensures LinearQuota(0, 1) == 0 && LinearQuota(t, 1) == 1 && LinearQuota(t + d, 1) == 1
  {
    RoundDivIsNearest(0, NANOS_PER_SECOND, 0);
    RoundDivIsNearest(t, NANOS_PER_SECOND, 1);
    RoundDivIsNearest(t + d, NANOS_PER_SECOND, 1);
  }

  /** Such moments are reached: at one request per second in bursts of one, whenever the first offset
      drawn lies within a second, the permit granted when it falls due cannot be released. */
  lemma JitterOverBurstCanReject(samples: nat -> nat, t: int, d: int)
    requires 2 * t == NANOS_PER_SECOND && samples(0) == d && 0 < d < NANOS_PER_SECOND
    ensures var l0 := Delegating(JitterState(samples, 0, [], true),
                                 Bursting(BurstState(1, 0, false, None), Linear(LinearState(1, None, 0, 0))));
            Initial(l0) &&
            var (l3, granted) := TryAcquire(TryAcquire(TryAcquire(l0, 0).0, t).0, t + d);
            granted && !Release(l3, t + d).1
  {
    HalfSecondQuotas(t, d);
    var s0 := LinearState(1, None, 0, 0);
    var s1 := s0.(start := Some(0));
    var s2 := s1.(acquired := 1);
    var j0 := JitterState(samples, 0, [], true);
    var j1 := JitterState(samples, 1, [t + d], true);
    assert TryLinear(s0, 0) == (s1, false);
    assert TryLinear(s1, t) == (s2, true);
    assert TryLinear(s2, t + d) == (s2, false);
    assert InsertTiming([], t + d) == [t + d];
    assert TryJitter(j0, true, t) == (j1, false);
    TryJitteredBurst(j0, s0, None, 0);
    TryJitteredBurst(j0, s1, None, t);
    TryJitteredBurst(j1, s2, Some(true), t + d);
  }

  // ---------- Whole runs ----------

  // What a caller may do, each at some time not before the previous.
  datatype Event = Attempt(after: nat) | GiveBack(after: nat) | Observe(after: nat)

  datatype Ledger = Ledger(limiter: Limiter, now: int, granted: int, released: int)

  function Step(g: Ledger, e: Event): (r: Ledger)
    requires Configured(g.limiter)
    ensures Configured(r.limiter)
  {
    var now := g.now + e.after;
    match e
    case Attempt(_) =>
      var (l, ok) := TryAcquire(g.limiter, now);
      Ledger(l, now, g.granted + (if ok then 1 else 0), g.released)
    case GiveBack(_) =>
      ReleaseConserves(g.limiter, now);
      var (l, ok) := Release(g.limiter, now);
      Ledger(l, now, g.granted, g.released + (if ok then 1 else 0))
    case Observe(_) =>
      ReadElapsedKeepsConfig(g.limiter, now);
      Ledger(ReadElapsed(g.limiter, now).0, now, g.granted, g.released)
  }

  lemma {:induction false} ReadElapsedKeepsConfig(l: Limiter, now: int)
    requires Configured(l)
    ensures Configured(ReadElapsed(l, now).0) && Net(ReadElapsed(l, now).0) == Net(l)
  {
    match l
    case Linear(_) =>
    case Ramping(_) =>
    case Scheduled(_, inner) => ReadElapsedKeepsConfig(inner, now);
    case Bursting(_, inner) => ReadElapsedKeepsConfig(inner, now);
    case Delegating(_, inner) => ReadElapsedKeepsConfig(inner, now);
  }

  function Run(g: Ledger, es: seq<Event>): (r: Ledger)
    requires Configured(g.limiter)
    ensures Configured(r.limiter)
    decreases |es|
  {
    if es == [] then g else Run(Step(g, es[0]), es[1..])
  }

  // No permit is given back that is not out.
  predicate Honest(g: Ledger, es: seq<Event>)
    requires Configured(g.limiter)
    decreases |es|
  {
    es == [] || ((es[0].GiveBack? ==> Net(g.limiter) > 0) && Honest(Step(g, es[0]), es[1..]))
  }

  /** Over any run of any stack the permits out change by grants minus accepted releases. */
  lemma {:induction false} RunConserves(g: Ledger, es: seq<Event>)
    requires Configured(g.limiter)
    ensures var r := Run(g, es);
            Net(r.limiter) - Net(g.limiter) == (r.granted - g.granted) - (r.released - g.released)
    decreases |es|
  {
    if es != [] {
      var now := g.now + es[0].after;
      TryConserves(g.limiter, now);
      ReleaseConserves(g.limiter, now);
      ReadElapsedKeepsConfig(g.limiter, now);
      RunConserves(Step(g, es[0]), es[1..]);
    }
  }

  lemma StepKeepsInv(g: Ledger, e: Event)
    requires Inv(g.limiter, g.now) && (e.GiveBack? ==> Net(g.limiter) > 0)
    ensures var r := Step(g, e); Inv(r.limiter, r.now)
  {
    var now := g.now + e.after;
    InvOutlastsTime(g.limiter, g.now, now);
    match e
    case Attempt(_) => TryKeepsInv(g.limiter, now);
    case GiveBack(_) => ReleaseKeepsInv(g.limiter, now);
    case Observe(_) => ReadElapsedKeepsInv(g.limiter, now);
  }

  lemma {:induction false} RunKeepsInv(g: Ledger, es: seq<Event>)
    requires Inv(g.limiter, g.now) && Honest(g, es)
    ensures var r := Run(g, es); Inv(r.limiter, r.now)
    decreases |es|
  {
    if es != [] {
      StepKeepsInv(g, es[0]);
      RunKeepsInv(Step(g, es[0]), es[1..]);
    }
  }

  /** Pacing safety: in every honest run of a freshly built stack, what the caller holds is never
      negative and never above the quota of the moment. */
  lemma RunStaysWithinQuota(l: Limiter, now: int, es: seq<Event>)
    requires Initial(l) && Honest(Ledger(l, now, 0, 0), es)
    ensures var r := Run(Ledger(l, now, 0, 0), es); 0 <= r.granted - r.released <= Quota(r.limiter, r.now)
  {
    InitialIsInv(l, now);
    RunConserves(Ledger(l, now, 0, 0), es);
    RunKeepsInv(Ledger(l, now, 0, 0), es);
    var r := Run(Ledger(l, now, 0, 0), es);
    NetWithinQuota(r.limiter, r.now);
  }

  // ---------- Jitter's waiting list ----------

  // The offsets that join and leave the waiting list in one attempt.
  function Joining(s: JitterState, innerGranted: bool, now: int): seq<int> {
    if innerGranted then [now + s.samples(s.drawn)] else []
  }

  function Leaving(s: JitterState, now: int): seq<int> {
    if ServeFront(s, now).1 then [s.timings[0]] else []
  }

  /** Serving takes the least waiting offset, only once its time has come. */
  lemma ServingTakesTheLeast(s: JitterState, now: int)
    requires Ascending(s.timings)
    ensures var (s', served) := ServeFront(s, now);
            && Ascending(s'.timings)
            && multiset(s'.timings) + multiset(Leaving(s, now)) == multiset(s.timings)
            && (served ==> s.timings[0] <= now && forall y | y in s'.timings :: s.timings[0] <= y)
  {
    if ServeFront(s, now).1 {
      assert s.timings == [s.timings[0]] + s.timings[1..];
    }
  }

  lemma QueueingAddsOne(s: JitterState, innerGranted: bool, now: int)
    requires Ascending(s.timings)
    ensures var s' := if innerGranted then Enqueue(s, now) else s;
            Ascending(s'.timings) && multiset(s'.timings) == multiset(s.timings) + multiset(Joining(s, innerGranted, now))
  {
    hide InsertTiming, Ascending;
    if innerGranted { InsertTimingKeeps(s.timings, now + s.samples(s.drawn)); }
  }

  lemma QueueingKeepsAll(s: JitterState, innerGranted: bool, now: int)
    requires Ascending(s.timings)
    ensures var s' := if innerGranted then Enqueue(s, now) else s;
            && Ascending(s'.timings)
            && (forall x | x in s.timings :: x in s'.timings)
            && (innerGranted ==> now + s.samples(s.drawn) in s'.timings)
            && (forall x | x in s'.timings :: x in s.timings || (innerGranted && x == now + s.samples(s.drawn)))
  {
    QueueingAddsOne(s, innerGranted, now);
    var s' := if innerGranted then Enqueue(s, now) else s;
    assert forall x :: x in s'.timings <==> x in multiset(s'.timings);
    assert forall x :: x in s.timings <==> x in multiset(s.timings);
    if innerGranted { assert now + s.samples(s.drawn) in multiset(s'.timings); }
  }

  lemma ServesIffDue(s: JitterState, now: int)
    requires Ascending(s.timings)
    ensures var (s', served) := ServeFront(s, now);
            (served <==> exists x :: x in s.timings && x <= now) && (!served ==> forall x | x in s'.timings :: x > now)
  {
    if s.timings != [] && s.timings[0] <= now { assert s.timings[0] in s.timings; }
  }

  lemma JitterServesIffDue(s: JitterState, granted: bool, now: int)
    requires Ascending(s.timings)
    ensures var (s', served) := TryJitter(s, granted, now);
      && (served <==> (exists x :: x in s.timings && x <= now) || (granted && s.samples(s.drawn) == 0))
      && (!served ==> forall x | x in s'.timings :: x > now)
  {
    hide Enqueue, ServeFront, Ascending;
    var s1 := if granted then Enqueue(s, now) else s;
    QueueingKeepsAll(s, granted, now);
    ServesIffDue(s1, now);
    var (_, served) := TryJitter(s, granted, now);
    if served {
      var x :| x in s1.timings && x <= now;
      assert x in s.timings || s.samples(s.drawn) == 0;
    } else if granted {
      assert now + s.samples(s.drawn) in s1.timings;
    }
  }

  /** No one waits past their time: with jitter on top an attempt is granted exactly when some offset that
      was waiting has come due, or this attempt's own inner grant draws no delay; and after a refusal
      everything that waits is still in the future. */
  lemma JitterGrantsIffDue(l: Limiter, now: int)
    requires Inv(l, now) && l.Delegating?
    ensures var (l', ok) := TryAcquire(l, now); var s := l.jitter;
      && (ok <==> (exists x :: x in s.timings && x <= now) || (TryAcquire(l.inner, now).1 && s.samples(s.drawn) == 0))
      && (!ok ==> forall x | x in l'.jitter.timings :: x > now)
  {
    assert Configured(l.inner) && Ascending(l.jitter.timings) by { JitterWaitsInOrder(l, now); }
    hide Inv, Configured, TryJitter, Ascending;
    JitterServesIffDue(l.jitter, TryAcquire(l.inner, now).1, now);
  }

  lemma JitterWaitsInOrder(l: Limiter, now: int)
    requires Inv(l, now) && l.Delegating?
    ensures Ascending(l.jitter.timings)
  {
  }

  datatype Waiting = Waiting(limiter: Limiter, now: int, queued: seq<int>, queuedAt: seq<int>, served: seq<int>, servedAt: seq<int>)

  function StepWaiting(w: Waiting, e: Event): (r: Waiting)
    requires Configured(w.limiter) && w.limiter.Delegating?
    ensures Configured(r.limiter) && r.limiter.Delegating?
  {
    var now := w.now + e.after;
    var l' := Step(Ledger(w.limiter, w.now, 0, 0), e).limiter;
    if !e.Attempt? then w.(limiter := l', now := now)
    else
      var s, ok := w.limiter.jitter, TryAcquire(w.limiter.inner, now).1;
      var joining, leaving := Joining(s, ok, now), Leaving(if ok then Enqueue(s, now) else s, now);
      Waiting(l', now, w.queued + joining, w.queuedAt + seq(|joining|, i => now),
              w.served + leaving, w.servedAt + seq(|leaving|, i => now))
  }

  function RunWaiting(w: Waiting, es: seq<Event>): (r: Waiting)
    requires Configured(w.limiter) && w.limiter.Delegating?
    ensures Configured(r.limiter) && r.limiter.Delegating?
    decreases |es|
  {
    if es == [] then w else RunWaiting(StepWaiting(w, es[0]), es[1..])
  }

  ghost predicate ListInv(waiting: seq<int>, queued: seq<int>, served: seq<int>, servedAt: seq<int>) {
    && Ascending(waiting)
    && multiset(queued) == multiset(served) + multiset(waiting)
    && |served| == |servedAt|
    && forall i :: 0 <= i < |served| ==> served[i] <= servedAt[i]
  }

  // Every inner grant so far was put off from its own time by its own draw, and no draw was wasted.
  ghost predicate DrawsInv(s: JitterState, queued: seq<int>, queuedAt: seq<int>) {
    && |queued| == |queuedAt| == s.drawn
    && forall i :: 0 <= i < |queued| ==> queued[i] == queuedAt[i] + s.samples(i)
  }

  ghost predicate WaitingInv(w: Waiting) {
    && w.limiter.Delegating?
    && ListInv(w.limiter.jitter.timings, w.queued, w.served, w.servedAt)
    && DrawsInv(w.limiter.jitter, w.queued, w.queuedAt)
  }

  lemma Bookkeeping(queued: seq<int>, served: seq<int>, t0: seq<int>, joined: seq<int>, t1: seq<int>, left: seq<int>, t2: seq<int>)
    requires multiset(queued) == multiset(served) + multiset(t0)
    requires multiset(t1) == multiset(t0) + multiset(joined)
    requires multiset(t2) + multiset(left) == multiset(t1)
    ensures multiset(queued + joined) == multiset(served + left) + multiset(t2)
  {
    calc {
      multiset(queued + joined);
      multiset(served) + multiset(t0) + multiset(joined);
      multiset(served) + (multiset(t0) + multiset(joined));
      multiset(served) + (multiset(t2) + multiset(left));
      multiset(served) + multiset(left) + multiset(t2);
      multiset(served + left) + multiset(t2);
    }
  }

  lemma TryJitterKeepsListInv(s: JitterState, ok: bool, now: int, queued: seq<int>, served: seq<int>, servedAt: seq<int>)
    requires ListInv(s.timings, queued, served, servedAt)
    ensures var leaving := Leaving(if ok then Enqueue(s, now) else s, now);
            ListInv(TryJitter(s, ok, now).0.timings, queued + Joining(s, ok, now), served + leaving,
                    servedAt + seq(|leaving|, i => now))
  {
    var s1 := if ok then Enqueue(s, now) else s;
    QueueingAddsOne(s, ok, now);
    ServingTakesTheLeast(s1, now);
    Bookkeeping(queued, served, s.timings, Joining(s, ok, now), s1.timings, Leaving(s1, now), ServeFront(s1, now).0.timings);
  }

  lemma TryJitterKeepsDrawsInv(s: JitterState, ok: bool, now: int, queued: seq<int>, queuedAt: seq<int>)
    requires DrawsInv(s, queued, queuedAt)
    ensures var joining := Joining(s, ok, now);
            DrawsInv(TryJitter(s, ok, now).0, queued + joining, queuedAt + seq(|joining|, i => now))
  {
  }

  // Releases and looks at the clock leave the list and the draws alone.
  lemma QuietStep(w: Waiting, e: Event)
    requires Configured(w.limiter) && w.limiter.Delegating? && !e.Attempt?
    ensures var s, s' := w.limiter.jitter, StepWaiting(w, e).limiter.jitter;
            s'.timings == s.timings && s'.drawn == s.drawn && s'.samples == s.samples
  {
    hide Configured;
  }

  lemma StepKeepsWaitingInv(w: Waiting, e: Event)
    requires Configured(w.limiter) && WaitingInv(w)
    ensures WaitingInv(StepWaiting(w, e))
  {
    hide ListInv, TryJitter, Enqueue, Joining, Leaving;
    if e.Attempt? {
      var now, s := w.now + e.after, w.limiter.jitter;
      var ok := TryAcquire(w.limiter.inner, now).1;
      TryJitterKeepsListInv(s, ok, now, w.queued, w.served, w.servedAt);
      TryJitterKeepsDrawsInv(s, ok, now, w.queued, w.queuedAt);
      assert StepWaiting(w, e).limiter.jitter == TryJitter(s, ok, now).0;
    } else {
      QuietStep(w, e);
    }
  }

  /** Over any run, jitter only puts off and reorders: every inner grant is queued at its own time plus
      its own draw, the offsets served and still waiting are together exactly the offsets queued, the
      list stays sorted, and no permit is served before its own time. */
  lemma {:induction false} JitterServesWhatItQueued(w: Waiting, es: seq<Event>)
    requires Configured(w.limiter) && WaitingInv(w)
    ensures WaitingInv(RunWaiting(w, es))
    decreases |es|
  {
    if es != [] {
      StepKeepsWaitingInv(w, es[0]);
      JitterServesWhatItQueued(StepWaiting(w, es[0]), es[1..]);
    }
  }

  // The waiting list's history runs beside the ledger: one permit served per grant.
  lemma {:induction false} WaitingFollowsLedger(w: Waiting, g: Ledger, es: seq<Event>)
    requires Configured(w.limiter) && w.limiter.Delegating? && g.limiter == w.limiter && g.now == w.now && g.granted == |w.served|
    ensures var w', g' := RunWaiting(w, es), Run(g, es);
            g'.limiter == w'.limiter && g'.granted == |w'.served|
    decreases |es|
  {
    if es != [] {
      hide Configured, Enqueue, InsertTiming;
      assert Step(g, es[0]).limiter == StepWaiting(w, es[0]).limiter;
      WaitingFollowsLedger(StepWaiting(w, es[0]), Step(g, es[0]), es[1..]);
    }
  }

  /** From a freshly built stack with jitter on top, over any run: the permits granted are the offsets
      served; what was queued is, as a multiset, what was served and what still waits; what waits is in
      order; nothing was served before its time; and the i-th inner grant was put off by the i-th draw. */
  lemma JitterRunIsFair(l: Limiter, now: int, es: seq<Event>)
    requires Initial(l) && l.Delegating?
    ensures var w := RunWaiting(Waiting(l, now, [], [], [], []), es); var waiting := w.limiter.jitter.timings;
      && Run(Ledger(l, now, 0, 0), es).granted == |w.served| == |w.servedAt| && |w.queued| == |w.queuedAt|
      && multiset(w.queued) == multiset(w.served) + multiset(waiting)
      && (forall i, j :: 0 <= i < j < |waiting| ==> waiting[i] <= waiting[j])
      && (forall i :: 0 <= i < |w.served| ==> w.served[i] <= w.servedAt[i])
      && (forall i :: 0 <= i < |w.queued| ==> w.queued[i] == w.queuedAt[i] + l.jitter.samples(i))
  {
    var w0 := Waiting(l, now, [], [], [], []);
    JitterServesWhatItQueued(w0, es);
    WaitingFollowsLedger(w0, Ledger(l, now, 0, 0), es);
    DrawsAreFixed(w0, es);
  }

  lemma {:induction false} DrawsAreFixed(w: Waiting, es: seq<Event>)
    requires Configured(w.limiter) && w.limiter.Delegating?
    ensures RunWaiting(w, es).limiter.jitter.samples == w.limiter.jitter.samples
    decreases |es|
  {
    if es != [] {
      hide Configured;
      assert StepWaiting(w, es[0]).limiter.jitter.samples == w.limiter.jitter.samples;
      DrawsAreFixed(StepWaiting(w, es[0]), es[1..]);
    }
  }

  // ---------- The stacks the factory builds ----------

  // rampTime is set when the linear-ramping plugin is configured; a duration of None means no limit.
  datatype PacingOptions = PacingOptions(rps: nat, burst: nat, jitter: nat, rampTime: Option<int>, duration: Option<int>)

  datatype FactoryError = BadRampTime | RampExceedsDuration | BadFrequency

  function FactoryStack(o: PacingOptions, startAt: int, samples: nat -> nat): Result<Limiter, FactoryError> {
    if o.rampTime.Some? then
      if o.rampTime.value <= 0 then Failure(BadRampTime)
      else if o.duration.Some? && o.rampTime.value > o.duration.value then Failure(RampExceedsDuration)
      else if o.rps == 0 then Failure(BadFrequency)
      else Success(Scheduled(ScheduleState(startAt, false), Ramping(RampState(o.rps, o.rampTime.value, None, 0, 0))))
    else if o.rps == 0 then Failure(BadFrequency)
    else
      var base := Scheduled(ScheduleState(startAt, false), Linear(LinearState(o.rps, None, 0, 0)));
      var bursted := if o.burst > 0 then Bursting(BurstState(o.burst, 0, false, None), base) else base;
      Success(if o.jitter > 0 then Delegating(JitterState(samples, 0, [], true), bursted) else bursted)
  }

  /** Which options build a stack, and which error the others end in: the ramp is checked first, and a
      frequency of zero is refused either way. */
  lemma FactoryStackBuildsIff(o: PacingOptions, startAt: int, samples: nat -> nat)
    ensures var r := FactoryStack(o, startAt, samples);
      && (r.Success? <==> o.rps > 0 && (o.rampTime.Some? ==>
                            0 < o.rampTime.value && (o.duration.Some? ==> o.rampTime.value <= o.duration.value)))
      && (r == Failure(BadRampTime) <==> o.rampTime.Some? && o.rampTime.value <= 0)
      && (r == Failure(RampExceedsDuration) <==>
            o.rampTime.Some? && o.duration.Some? && o.rampTime.value > 0 && o.rampTime.value > o.duration.value)
      && (r == Failure(BadFrequency) ==> o.rps == 0)
  {
  }

  /** Which of the general results apply to which configuration: the quota decides alone exactly when
      there is no jitter, and grants can be given back unless both jitter and bursts are configured. */
  lemma FactoryStackShape(o: PacingOptions, startAt: int, samples: nat -> nat)
    requires FactoryStack(o, startAt, samples).Success?
    ensures var l := FactoryStack(o, startAt, samples).value;
            && Initial(l)
            && (Eager(l) <==> o.rampTime.Some? || o.jitter == 0)
            && (ReleaseSafe(l) <==> o.rampTime.Some? || o.jitter == 0 || o.burst == 0)
  {
    if o.rampTime.None? {
      var base := Scheduled(ScheduleState(startAt, false), Linear(LinearState(o.rps, None, 0, 0)));
      assert Initial(base) && Eager(base) && ReleaseSafe(base) && FreelyReleasable(base);
      var bursted := if o.burst > 0 then Bursting(BurstState(o.burst, 0, false, None), base) else base;
      assert Initial(bursted) && Eager(bursted) && ReleaseSafe(bursted) && (FreelyReleasable(bursted) <==> o.burst == 0);
    }
  }
}
