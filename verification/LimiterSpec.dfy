/** What a stack of rate limiters does, as functions on values. Any limiter may wrap any other;
    the classes in RateLimiters update their fields in place and are proved to follow these functions. */
module LimiterSpec {
  import opened Wrappers
  import opened Quotas

  datatype LinearState = LinearState(hz: int, start: Option<int>, acquireable: int, acquired: int)

  datatype RampState = RampState(hz: int, rampTime: int, start: Option<int>, acquireable: int, acquired: int)

  datatype ScheduleState = ScheduleState(startAt: int, attempted: bool)

  datatype BurstState = BurstState(size: int, accumulated: int, releasing: bool, previouslyReleasing: Option<bool>)

  // samples is the random generator's output stream, of which `drawn` values have been used.
  datatype JitterState = JitterState(samples: nat -> nat, drawn: nat, timings: seq<int>, pendingRelease: bool)

  datatype Limiter =
    | Linear(linear: LinearState)
    | Ramping(ramp: RampState)
    | Scheduled(schedule: ScheduleState, inner: Limiter)
    | Bursting(burst: BurstState, inner: Limiter)
    | Delegating(jitter: JitterState, inner: Limiter)

  // What the constructors insist on; they throw or assert otherwise.
  predicate Configured(l: Limiter) {
    match l
    case Linear(s) => s.hz > 0
    case Ramping(s) => s.hz > 0 && s.rampTime > 0
    case Scheduled(_, inner) => Configured(inner)
    case Bursting(s, inner) => s.size > 0 && Configured(inner)
    case Delegating(_, inner) => Configured(inner)
  }

  function Height(l: Limiter): nat {
    match l
    case Linear(_) => 0
    case Ramping(_) => 0
    case Scheduled(_, inner) => 1 + Height(inner)
    case Bursting(_, inner) => 1 + Height(inner)
    case Delegating(_, inner) => 1 + Height(inner)
  }

  // ---------- The operations ----------

  // RateLimiterBaseImpl::elapsed: the clock starts at the first call.
  function StartTime(start: Option<int>, now: int): int {
    if start.Some? then start.value else now
  }

  function TryLinear(s: LinearState, now: int): (r: (LinearState, bool)) {
    if s.acquireable > 0 then
      (s.(acquireable := s.acquireable - 1, acquired := s.acquired + 1), true)
    else
      var begin := StartTime(s.start, now);
      var refill := LinearQuota(now - begin, s.hz) - s.acquired;
      if refill > 0 then
        (s.(start := Some(begin), acquireable := refill - 1, acquired := s.acquired + 1), true)
      else
        (s.(start := Some(begin), acquireable := refill), false)
  }

  // The stored count is tested for being non-zero, not for being positive.
  function TryRamping(s: RampState, now: int): (r: (RampState, bool))
    requires s.rampTime > 0
  {
    if s.acquireable != 0 then
      (s.(acquireable := s.acquireable - 1, acquired := s.acquired + 1), true)
    else
      var begin := StartTime(s.start, now);
      var refill := RampQuota(now - begin, s.rampTime, s.hz) - s.acquired;
      if refill > 0 then
        (s.(start := Some(begin), acquireable := refill - 1, acquired := s.acquired + 1), true)
      else
        (s.(start := Some(begin), acquireable := refill), false)
  }

  // One permit out of a held burst.
  function TakeFromBurst(s: BurstState, accumulated: int): BurstState {
    s.(accumulated := accumulated - 1, releasing := accumulated - 1 > 0, previouslyReleasing := Some(true))
  }

  function TryAcquire(l: Limiter, now: int): (r: (Limiter, bool))
    requires Configured(l)
    ensures Configured(r.0) && Height(r.0) == Height(l)
    decreases Height(l), 0, 0
  {
    match l
    case Linear(s) => var (s', ok) := TryLinear(s, now); (Linear(s'), ok)
    case Ramping(s) => var (s', ok) := TryRamping(s, now); (Ramping(s'), ok)
    case Scheduled(s, inner) =>
      if now < s.startAt then (Scheduled(s.(attempted := true), inner), false)
      else
        var (inner', ok) := TryAcquire(inner, now);
        (Scheduled(s.(attempted := true), inner'), ok)
    case Bursting(s, inner) =>
      if s.releasing then (Bursting(TakeFromBurst(s, s.accumulated), inner), true)
      else
        var (inner', total, full) := FillBurst(inner, s.accumulated, s.size, now);
        if full then (Bursting(TakeFromBurst(s, total), inner'), true)
        else (Bursting(s.(accumulated := total, previouslyReleasing := None), inner'), false)
    case Delegating(s, inner) =>
      var (inner', ok) := TryAcquire(inner, now);
      var (s', served) := TryJitter(s, ok, now);
      (Delegating(s', inner'), served)
  }

  // The greedy loop of BurstingRateLimiter: take inner permits until a multiple of the burst size
  // is held (true) or the inner limiter refuses (false).
  function FillBurst(inner: Limiter, accumulated: int, size: int, now: int): (r: (Limiter, int, bool))
    requires Configured(inner) && size > 0
    ensures Configured(r.0) && Height(r.0) == Height(inner)
    decreases Height(inner), 1, size - accumulated % size
  {
    var (inner', ok) := TryAcquire(inner, now);
    if !ok then (inner', accumulated, false)
    else if (accumulated + 1) % size == 0 then (inner', accumulated + 1, true)
    else
      NextRemainder(accumulated, size);
      FillBurst(inner', accumulated + 1, size, now)
  }

  // How many times that loop asks the inner limiter.
  function FillCalls(inner: Limiter, accumulated: int, size: int, now: int): nat
    requires Configured(inner) && size > 0
    decreases size - accumulated % size
  {
    var (inner', ok) := TryAcquire(inner, now);
    NextRemainder(accumulated, size);
    if !ok || (accumulated + 1) % size == 0 then 1 else 1 + FillCalls(inner', accumulated + 1, size, now)
  }

  // An inner grant joins the waiting list at a drawn offset ...
  function Enqueue(s: JitterState, now: int): JitterState {
    s.(drawn := s.drawn + 1, timings := InsertTiming(s.timings, now + s.samples(s.drawn)))
  }

  // ... and the front of the list is served once it is due.
  function ServeFront(s: JitterState, now: int): (r: (JitterState, bool)) {
    if s.timings != [] && s.timings[0] <= now then
      (s.(timings := s.timings[1..], pendingRelease := false), true)
    else
      (s, false)
  }

  function TryJitter(s: JitterState, innerGranted: bool, now: int): (r: (JitterState, bool)) {
    ServeFront(if innerGranted then Enqueue(s, now) else s, now)
  }

  // std::upper_bound followed by insert: x goes after every element not greater than it.
  function InsertTiming(ts: seq<int>, x: int): (r: seq<int>)
    ensures |r| == |ts| + 1
  {
    if ts == [] || x < ts[0] then [x] + ts else [ts[0]] + InsertTiming(ts[1..], x)
  }

  ghost predicate Ascending(ts: seq<int>) {
    forall i, j :: 0 <= i < j < |ts| ==> ts[i] <= ts[j]
  }

  // What a burst does with a permit given back.
  function ReleaseBurst(s: BurstState): BurstState {
    s.(accumulated := s.accumulated + 1, releasing := true, previouslyReleasing := None)
  }

  // The second component is false when the call throws or trips an assertion. The scheduled start throws
  // and jitter checks in every build; the two checks of a burst are debug assertions, and where those are
  // compiled out it goes on to ReleaseBurst (UncheckedReleaseKeepsBurstsIff says when that is harmless).
  function Release(l: Limiter, now: int): (r: (Limiter, bool)) {
    match l
    case Linear(s) => (Linear(s.(acquireable := s.acquireable + 1, acquired := s.acquired - 1)), true)
    case Ramping(s) => (Ramping(s.(acquireable := s.acquireable + 1, acquired := s.acquired - 1)), true)
    case Scheduled(s, inner) =>
      if now < s.startAt then (l, false)
      else
        var (inner', ok) := Release(inner, now);
        (Scheduled(s, inner'), ok)
    case Bursting(s, inner) =>
      if s.accumulated < s.size && s.previouslyReleasing == Some(true) then
        (Bursting(ReleaseBurst(s), inner), true)
      else
        (l, false)
    case Delegating(s, inner) =>
      if s.pendingRelease then (l, false)
      else
        var (inner', ok) := Release(inner, now);
        (Delegating(s.(pendingRelease := true), inner'), ok)
  }

  // Reading the elapsed time starts the innermost clock, whatever wraps it.
  function ReadElapsed(l: Limiter, now: int): (r: (Limiter, int)) {
    match l
    case Linear(s) => (Linear(s.(start := Some(StartTime(s.start, now)))), now - StartTime(s.start, now))
    case Ramping(s) => (Ramping(s.(start := Some(StartTime(s.start, now)))), now - StartTime(s.start, now))
    case Scheduled(s, inner) => var (i, t) := ReadElapsed(inner, now); (Scheduled(s, i), t)
    case Bursting(s, inner) => var (i, t) := ReadElapsed(inner, now); (Bursting(s, i), t)
    case Delegating(s, inner) => var (i, t) := ReadElapsed(inner, now); (Delegating(s, i), t)
  }

  // ---------- Arithmetic of bursts ----------

  lemma RemainderIsUnique(a: int, b: int, q: int, r: int)
    requires b > 0 && a == b * q + r && 0 <= r < b
    ensures a % b == r && a / b == q
  {
    var q', r' := a / b, a % b;
    assert a == b * q' + r';
    assert q * b < (q' + 1) * b;
    assert q' * b < (q + 1) * b;
    MulCancel(q, q' + 1, b);
    MulCancel(q', q + 1, b);
  }

  lemma NextRemainder(a: int, b: int)
    requires b > 0
    ensures (a + 1) % b == if a % b == b - 1 then 0 else a % b + 1
  {
    var q, r := a / b, a % b;
    if r == b - 1 {
      RemainderIsUnique(a + 1, b, q + 1, 0);
    } else {
      RemainderIsUnique(a + 1, b, q, r + 1);
    }
  }

  lemma MultipleIsFixed(a: int, b: int)
    requires b > 0 && a % b == 0
    ensures b * (a / b) == a
    ensures (a + b) % b == 0 && (a - b) % b == 0
  {
    RemainderIsUnique(a + b, b, a / b + 1, 0);
    RemainderIsUnique(a - b, b, a / b - 1, 0);
  }

  /** For a multiple m of b: m stays within the multiples below q iff it stays within q itself, and
      the next multiple fits iff q has room for a whole b above m. */
  lemma MultiplesBelow(m: int, b: int, q: int)
    requires b > 0 && m % b == 0
    ensures m <= b * (q / b) <==> m <= q
    ensures m < b * (q / b) <==> m + b <= q
  {
    var k := m / b;
    MultipleIsFixed(m, b);
    assert b * (q / b) <= q < b * (q / b) + b;
    if k <= q / b { MulLe(k, q / b, b); } else { MulLe(q / b + 1, k, b); }
    if k + 1 <= q / b { MulLe(k + 1, q / b, b); }
  }

  // ---------- What is conserved ----------

  // Permits handed out and not given back: what the innermost limiter counts, less what the
  // wrappers hold on to.
  function Net(l: Limiter): int {
    match l
    case Linear(s) => s.acquired
    case Ramping(s) => s.acquired
    case Scheduled(_, inner) => Net(inner)
    case Bursting(s, inner) => Net(inner) - s.accumulated
    case Delegating(s, inner) => Net(inner) - |s.timings|
  }

  /** Conservation, for every stack in every state: a grant adds exactly one to the permits out,
      a refusal nothing, an accepted release takes one back. */
  lemma {:induction false} TryConserves(l: Limiter, now: int)
    requires Configured(l)
    ensures var (l', ok) := TryAcquire(l, now); Net(l') == Net(l) + if ok then 1 else 0
    decreases Height(l), 0, 0
  {
    match l
    case Linear(_) =>
    case Ramping(_) =>
    case Scheduled(_, inner) => TryConserves(inner, now);
    case Bursting(s, inner) => FillConserves(inner, s.accumulated, s.size, now);
    case Delegating(_, inner) => TryConserves(inner, now);
  }

  lemma {:induction false} FillConserves(inner: Limiter, accumulated: int, size: int, now: int)
    requires Configured(inner) && size > 0
    ensures var (inner', total, full) := FillBurst(inner, accumulated, size, now);
            Net(inner') - total == Net(inner) - accumulated
    decreases Height(inner), 1, size - accumulated % size
  {
    TryConserves(inner, now);
    var (inner', ok) := TryAcquire(inner, now);
    NextRemainder(accumulated, size);
    if ok && (accumulated + 1) % size != 0 {
      FillConserves(inner', accumulated + 1, size, now);
    }
  }

  /** The greedy loop asks the inner limiter at most for what is missing from a burst, and once more
      than it was granted when it falls short. */
  lemma {:induction false} FillAsksForOneBurst(inner: Limiter, accumulated: int, size: int, now: int)
    requires Configured(inner) && 0 <= accumulated < size
    ensures var (inner', total, full) := FillBurst(inner, accumulated, size, now);
            && FillCalls(inner, accumulated, size, now) == total - accumulated + (if full then 0 else 1)
            && (if full then total == size else accumulated <= total < size)
    decreases size - accumulated
  {
    var (inner', ok) := TryAcquire(inner, now);
    RemainderIsUnique(accumulated, size, 0, accumulated);
    NextRemainder(accumulated, size);
    if ok && accumulated + 1 < size {
      FillAsksForOneBurst(inner', accumulated + 1, size, now);
    }
  }

  lemma {:induction false} ReleaseConserves(l: Limiter, now: int)
    ensures var (l', ok) := Release(l, now); Net(l') == Net(l) - if ok then 1 else 0
    ensures var (l', _) := Release(l, now); Configured(l') == Configured(l)
  {
    match l
    case Linear(_) =>
    case Ramping(_) =>
    case Scheduled(_, inner) => ReleaseConserves(inner, now);
    case Bursting(_, _) =>
    case Delegating(_, inner) => ReleaseConserves(inner, now);
  }

  // ---------- What no operation changes ----------

  // The stack as configured, all state forgotten.
  function Blank(l: Limiter): Limiter {
    match l
    case Linear(s) => Linear(LinearState(s.hz, None, 0, 0))
    case Ramping(s) => Ramping(RampState(s.hz, s.rampTime, None, 0, 0))
    case Scheduled(s, inner) => Scheduled(ScheduleState(s.startAt, false), Blank(inner))
    case Bursting(s, inner) => Bursting(BurstState(s.size, 0, false, None), Blank(inner))
    case Delegating(s, inner) => Delegating(JitterState(s.samples, 0, [], true), Blank(inner))
  }

  // When the innermost clock was first read.
  function ClockStart(l: Limiter): Option<int> {
    match l
    case Linear(s) => s.start
    case Ramping(s) => s.start
    case Scheduled(_, inner) => ClockStart(inner)
    case Bursting(_, inner) => ClockStart(inner)
    case Delegating(_, inner) => ClockStart(inner)
  }

  lemma {:induction false} TryKeepsBlank(l: Limiter, now: int)
    requires Configured(l)
    ensures Blank(TryAcquire(l, now).0) == Blank(l)
    decreases Height(l), 0, 0
  {
    match l
    case Linear(_) =>
    case Ramping(_) =>
    case Scheduled(_, inner) => TryKeepsBlank(inner, now);
    case Bursting(s, inner) => FillKeepsBlank(inner, s.accumulated, s.size, now);
    case Delegating(_, inner) => TryKeepsBlank(inner, now);
  }

  lemma {:induction false} FillKeepsBlank(inner: Limiter, accumulated: int, size: int, now: int)
    requires Configured(inner) && size > 0
    ensures Blank(FillBurst(inner, accumulated, size, now).0) == Blank(inner)
    decreases Height(inner), 1, size - accumulated % size
  {
    TryKeepsBlank(inner, now);
    var (inner', ok) := TryAcquire(inner, now);
    NextRemainder(accumulated, size);
    if ok && (accumulated + 1) % size != 0 {
      FillKeepsBlank(inner', accumulated + 1, size, now);
    }
  }

  lemma {:induction false} ReleaseKeepsBlank(l: Limiter, now: int)
    ensures var l' := Release(l, now).0; Blank(l') == Blank(l) && ClockStart(l') == ClockStart(l)
  {
    match l
    case Linear(_) =>
    case Ramping(_) =>
    case Scheduled(_, inner) => ReleaseKeepsBlank(inner, now);
    case Bursting(_, _) =>
    case Delegating(_, inner) => ReleaseKeepsBlank(inner, now);
  }

  lemma {:induction false} ReadElapsedKeepsBlank(l: Limiter, now: int)
    ensures var (l', elapsed) := ReadElapsed(l, now);
            && Blank(l') == Blank(l) && ClockStart(l') == Some(StartTime(ClockStart(l), now))
            && elapsed == if ClockStart(l).Some? then now - ClockStart(l).value else 0
  {
    match l
    case Linear(_) =>
    case Ramping(_) =>
    case Scheduled(_, inner) => ReadElapsedKeepsBlank(inner, now);
    case Bursting(_, inner) => ReadElapsedKeepsBlank(inner, now);
    case Delegating(_, inner) => ReadElapsedKeepsBlank(inner, now);
  }
}
