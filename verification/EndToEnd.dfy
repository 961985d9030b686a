/** Pacing from the options to the target calls: the stack that the factory builds, driven by the
    sequencer through any life, in one worker and in all of them. */
module EndToEnd {
  import opened Wrappers
  import opened Quotas
  import opened LimiterSpec
  import opened Pacing
  import opened FactoryPacing
  import opened SequencerSpec
  import opened LoopReplies
  import opened WorkerSchedule
  import TerminationPredicates

  // ---------- The clock of a sequencer's stack ----------

  // The clock has not started before the scheduled start; only the reading of the elapsed time in a
  // stop can start it sooner, and then nothing was or will be initiated.
  predicate OnTime(s: Sequencer, startAt: int) {
    ClockFrom(s.limiter, startAt) || (s.exited && s.initiated == 0)
  }

  lemma {:induction false} DriveKeepsClock(s: Sequencer, now: int, replies: seq<Reply>, startAt: int)
    requires Configured(s.limiter) && Gated(s.limiter, startAt) && ClockFrom(s.limiter, startAt)
    ensures ClockFrom(Drive(s, now, replies).0.limiter, startAt)
    decreases |replies|
  {
    hide TryAcquire, Release, Gated, ClockStart;
    var (l, ok) := TryAcquire(s.limiter, s.now);
    TryKeepsClock(s.limiter, s.now, startAt);
    ReleaseKeepsBlank(l, s.now);
    if ok && replies != [] && replies[0].Started? {
      DriveKeepsClock(BeginTarget(s.(limiter := l), now, replies[0].inline), now, replies[1..], startAt);
    }
  }

  lemma StopReadsClock(s: Sequencer, failed: bool)
    ensures var r := Stop(s, failed);
            r.initiated == s.initiated && r.exited && ClockStart(r.limiter) == Some(StartTime(ClockStart(s.limiter), s.now))
  {
    hide ReadElapsed, ClockStart;
    StopReadsTwice(s, failed);
    ReadElapsedKeepsBlank(s.limiter, s.now);
    ReadElapsedKeepsBlank(ReadElapsed(s.limiter, s.now).0, s.now);
  }

  // Ready to run, with the factory's stack, on time.
  ghost predicate Ready(s: Sequencer, o: PacingOptions, startAt: int, samples: nat -> nat) {
    Inv(s.limiter, s.now) && s.initiated == Net(s.limiter) && BuiltFrom(s.limiter, o, startAt, samples) && ClockFrom(s.limiter, startAt)
  }

  lemma StopIsOnTime(s: Sequencer, failed: bool, o: PacingOptions, startAt: int, samples: nat -> nat)
    requires Ready(s, o, startAt, samples)
    ensures OnTime(Stop(s, failed), startAt)
  {
    hide Stop, BuiltFrom, Inv, Net, FactoryQuota;
    StopReadsClock(s, failed);
    FactoryStackPaces(s.limiter, o, startAt, samples, s.now);
  }

  lemma RunIsOnTime(s: Sequencer, fromPeriodic: bool, after: nat, verdict: TerminationPredicates.Status, replies: seq<Reply>,
                    o: PacingOptions, startAt: int, samples: nat -> nat)
    requires Ready(s.(now := s.now + after), o, startAt, samples) && s.status == TerminationPredicates.PROCEED
    ensures Configured(s.limiter) && OnTime(RunOnce(s, fromPeriodic, after, verdict, replies), startAt)
  {
    hide Drive, Stop, BuiltFrom;
    var s1 := s.(now := s.now + after, status := verdict);
    if verdict != TerminationPredicates.PROCEED {
      StopIsOnTime(s1, verdict == TerminationPredicates.FAIL, o, startAt, samples);
    } else {
      FactoryQuotaIsQuota(s1.limiter, o, startAt, samples, s1.now);
      DriveKeepsClock(s1, s1.now, replies, startAt);
    }
  }

  lemma NextIsOnTime(s: Sequencer, birth: int, e: SequencerSpec.Event, o: PacingOptions, startAt: int, samples: nat -> nat)
    requires SequencerInv(s, birth) && Enabled(s, e) && BuiltFrom(s.limiter, o, startAt, samples) && OnTime(s, startAt)
    ensures OnTime(Next(s, e), startAt)
  {
    hide RunOnce, BuiltFrom, Drive, BlockInv;
    if !e.TargetReports? {
      AwokenIsReady(s, birth, e);
      RunIsOnTime(Awoken(s, e), e.PeriodicFires?, e.after, e.verdict, e.replies, o, startAt, samples);
    }
  }

  lemma {:induction false} LifeIsOnTime(s: Sequencer, birth: int, es: seq<SequencerSpec.Event>, o: PacingOptions, startAt: int, samples: nat -> nat)
    requires SequencerInv(s, birth) && Possible(s, es) && Intact(s, es)
    requires BuiltFrom(s.limiter, o, startAt, samples) && OnTime(s, startAt)
    ensures var r := After(s, es); SequencerInv(r, birth) && BuiltFrom(r.limiter, o, startAt, samples) && OnTime(r, startAt)
    decreases |es|
  {
    if es != [] {
      assert Configured(s.limiter);
      hide Next, SequencerInv, OnTime, Enabled, Accepts, FactoryStack, Blank;
      NextKeepsInv(s, birth, es[0]);
      NextKeepsBlank(s, es[0]);
      NextIsOnTime(s, birth, es[0], o, startAt, samples);
      LifeIsOnTime(Next(s, es[0]), birth, es[1..], o, startAt, samples);
    }
  }

  // ---------- One worker ----------

  // A life of a sequencer that the factory built.
  ghost predicate FactoryLife(o: PacingOptions, startAt: int, samples: nat -> nat, s: Sequencer, es: seq<SequencerSpec.Event>) {
    FactoryStack(o, startAt, samples) == Success(s.limiter) && Newborn(s) && Possible(s, es) && Intact(s, es)
  }

  lemma FactoryLifeIsSafe(o: PacingOptions, startAt: int, samples: nat -> nat, s: Sequencer, es: seq<SequencerSpec.Event>)
    requires FactoryLife(o, startAt, samples, s, es)
    ensures var r := After(s, es);
            SequencerInv(r, s.now) && BuiltFrom(r.limiter, o, startAt, samples) && OnTime(r, startAt)
  {
    hide After, Possible, Intact, SequencerInv, FactoryStack;
    NewbornInv(s);
    InitialIsBlank(s.limiter);
    LifeIsOnTime(s, s.now, es, o, startAt, samples);
  }

  /** Unless both jitter and bursts are configured, no life ends the process: every permit the target
      does not use is taken back. */
  lemma FactoryLivesAreIntact(o: PacingOptions, startAt: int, samples: nat -> nat, s: Sequencer, es: seq<SequencerSpec.Event>)
    requires FactoryStack(o, startAt, samples) == Success(s.limiter) && Newborn(s) && Possible(s, es)
    requires o.rampTime.Some? || o.jitter == 0 || o.burst == 0
    ensures Intact(s, es)
  {
    FactoryStackShape(o, startAt, samples);
    hide Possible, Intact, SequencerInv, FactoryStack;
    NewbornInv(s);
    SafeStacksStayIntact(s, s.now, es);
  }

  /** For every option set and every life, by the options and the time alone: the targets initiated never
      exceed what the configured pace, in whole bursts, allows since the scheduled start; so none is
      initiated before it. */
  lemma FactoryRunIsPaced(o: PacingOptions, startAt: int, samples: nat -> nat, s: Sequencer, es: seq<SequencerSpec.Event>)
    requires FactoryLife(o, startAt, samples, s, es)
    ensures var r := After(s, es);
      && (o.rampTime.Some? ==> o.rampTime.value > 0)
      && 0 <= r.initiated <= FactoryQuota(o, startAt, startAt, r.now) && (r.now < startAt ==> r.initiated == 0)
  {
    hide After, Possible, Intact, FactoryStack;
    FactoryLifeIsSafe(o, startAt, samples, s, es);
    var r := After(s, es);
    NetWithinQuota(r.limiter, r.now);
    FactoryStackPaces(r.limiter, o, startAt, samples, r.now);
    if ClockFrom(r.limiter, startAt) {
      FactoryStackIsOnSchedule(r.limiter, o, startAt, samples, r.now);
    } else {
      QuotaIsNotNegative(o, startAt, r.now);
    }
  }

  lemma QuotaIsNotNegative(o: PacingOptions, startAt: int, now: int)
    requires o.rampTime.Some? ==> o.rampTime.value > 0
    ensures FactoryQuota(o, startAt, startAt, now) >= 0
  {
    hide LinearQuota, RampQuota;
    if startAt <= now {
      LinearQuotaIsMonotone(0, now - startAt, o.rps);
      QuotasStartAtZero(o.rps, if o.rampTime.Some? then o.rampTime.value else 1);
      if o.rampTime.Some? { RampQuotaIsMonotone(0, now - startAt, o.rampTime.value, o.rps); }
      if o.burst > 0 {
        var due := LinearQuota(now - startAt, o.rps);
        assert due / o.burst >= 0;
        MulLe(0, due / o.burst, o.burst);
      }
    }
  }

  /** Without jitter, whenever run() proceeds: it returns with exactly what the options allow since the clock
      started if its loop was ended by the limiter, and only then; with less if a target refused. The clock
      started neither before the scheduled start nor in the future. */
  lemma FactoryRunCatchesUp(o: PacingOptions, startAt: int, samples: nat -> nat, s: Sequencer, es: seq<SequencerSpec.Event>,
                            e: SequencerSpec.Event)
    requires FactoryLife(o, startAt, samples, s, es) && (o.rampTime.Some? || o.jitter == 0)
    requires Enabled(After(s, es), e) && !e.TargetReports? && e.verdict == TerminationPredicates.PROCEED
    ensures var r := Next(After(s, es), e); var clock := StartTime(ClockStart(r.limiter), r.now);
      && (o.rampTime.Some? ==> o.rampTime.value > 0)
      && r.initiated <= FactoryQuota(o, startAt, clock, r.now) && (startAt <= r.now ==> startAt <= clock <= r.now)
      && (LoopOf(After(s, es), e).1 == LimiterRefused <==> r.initiated == FactoryQuota(o, startAt, clock, r.now))
  {
    hide After, Possible, Intact, FactoryStack, Next, LoopOf;
    FactoryLifeIsSafe(o, startAt, samples, s, es);
    CaughtUp(After(s, es), s.now, e, o, startAt, samples);
  }

  lemma EagerStackIsSafe(l: Limiter, o: PacingOptions, startAt: int, samples: nat -> nat)
    requires BuiltFrom(l, o, startAt, samples) && (o.rampTime.Some? || o.jitter == 0)
    ensures Eager(l) && ReleaseSafe(l)
  {
    FactoryStackShape(o, startAt, samples);
    hide Blank, FactoryStack, Eager, ReleaseSafe;
    ShapeOfBlank(l);
  }

  lemma CaughtUp(s: Sequencer, birth: int, e: SequencerSpec.Event, o: PacingOptions, startAt: int, samples: nat -> nat)
    requires SequencerInv(s, birth) && BuiltFrom(s.limiter, o, startAt, samples) && OnTime(s, startAt)
    requires (o.rampTime.Some? || o.jitter == 0) && Enabled(s, e) && !e.TargetReports? && e.verdict == TerminationPredicates.PROCEED
    ensures var r := Next(s, e); var clock := StartTime(ClockStart(r.limiter), r.now);
      && (o.rampTime.Some? ==> o.rampTime.value > 0)
      && r.initiated <= FactoryQuota(o, startAt, clock, r.now) && (startAt <= r.now ==> startAt <= clock <= r.now)
      && (LoopOf(s, e).1 == LimiterRefused <==> r.initiated == FactoryQuota(o, startAt, clock, r.now))
  {
    hide Next, LoopOf, FactoryStack, Quota, FactoryQuota, Blank, BlockInv, Eager, ReleaseSafe;
    EagerStackIsSafe(s.limiter, o, startAt, samples);
    RunUsesTheQuota(s, birth, e);
    NextKeepsInv(s, birth, e);
    NextKeepsBlank(s, e);
    NextIsOnTime(s, birth, e, o, startAt, samples);
    RunLatches(s, birth, e);
    var r := Next(s, e);
    FactoryQuotaIsQuota(r.limiter, o, startAt, samples, r.now);
    NetWithinQuota(r.limiter, r.now);
    ClockNotAhead(r.limiter, r.now);
  }

  // The first attempt of a loop starts the clock, if it may; the others leave it.
  lemma {:induction false} LoopStartsClock(s: Sequencer, birth: int, now: int, replies: seq<Reply>)
    requires now <= s.now && CountInv(s, 0) && BlockInv(s, birth, now)
    ensures ClockStart(Drive(s, now, replies).0.limiter) == ClockAfter(s.limiter, s.now)
    decreases |replies|
  {
    assert Configured(s.limiter);
    hide TryAcquire, Release, Gated, ClockStart, Blank, Configured, Inv, Net;
    var (l, ok) := TryAcquire(s.limiter, s.now);
    var s1 := s.(limiter := l);
    FirstOpenAttemptStartsClock(s.limiter, s.now);
    AttemptKeeps(s);
    TryKeepsBlank(s.limiter, s.now);
    ReleaseKeepsBlank(l, s.now);
    if ok && replies != [] && replies[0].Started? {
      BeginTargetKeeps(s1, birth, now, replies[0].inline);
      var s2 := BeginTarget(s1, now, replies[0].inline);
      LoopStartsClock(s2, birth, now, replies[1..]);
      GrantNeedsOpenGate(s.limiter, s.now);
      assert ClockStart(l).Some?;
    }
  }

  lemma GrantNeedsOpenGate(l: Limiter, now: int)
    requires Inv(l, now) && TryAcquire(l, now).1
    ensures ClockAfter(l, now).Some?
  {
    assert Configured(l);
    hide TryAcquire, Gated, ClockStart, Inv, Configured, Net;
    FirstOpenAttemptStartsClock(l, now);
    TryKeepsInv(l, now);
    TryConserves(l, now);
    NetWithinQuota(l, now);
    if ClockAfter(l, now).None? { PermitsNeedAClock(TryAcquire(l, now).0, now); }
  }

  /** For every option set: the clock that the pace is counted from is the time of the first run() at or after
      the scheduled start. A run() before that leaves it unset, a later one leaves it alone. */
  lemma FactoryClockStarts(o: PacingOptions, startAt: int, samples: nat -> nat, s: Sequencer, es: seq<SequencerSpec.Event>,
                           e: SequencerSpec.Event)
    requires FactoryLife(o, startAt, samples, s, es)
    requires Enabled(After(s, es), e) && !e.TargetReports? && e.verdict == TerminationPredicates.PROCEED
    ensures var b, r := After(s, es), Next(After(s, es), e); var now := b.now + e.after;
            ClockStart(r.limiter) == if now < startAt then None else Some(StartTime(ClockStart(b.limiter), now))
  {
    hide After, Possible, Intact, FactoryStack, Next;
    FactoryLifeIsSafe(o, startAt, samples, s, es);
    RunStartsClock(After(s, es), s.now, e, o, startAt, samples);
  }

  lemma RunStartsClock(s: Sequencer, birth: int, e: SequencerSpec.Event, o: PacingOptions, startAt: int, samples: nat -> nat)
    requires SequencerInv(s, birth) && BuiltFrom(s.limiter, o, startAt, samples) && OnTime(s, startAt)
    requires Enabled(s, e) && !e.TargetReports? && e.verdict == TerminationPredicates.PROCEED
    ensures var r := Next(s, e); var now := s.now + e.after;
            ClockStart(r.limiter) == if now < startAt then None else Some(StartTime(ClockStart(s.limiter), now))
  {
    hide Next, Drive, BuiltFrom, BlockInv, Inv, Configured, Gated, ClockStart;
    var awoken := Awoken(s, e).(now := s.now + e.after);
    RunIsRearmedLoop(s, birth, e);
    AwokenIsReady(s, birth, e);
    LoopStartsClock(awoken, birth, awoken.now, e.replies);
    FactoryGate(s.limiter, o, startAt, samples, awoken.now + 1);
    ClockNotAhead(s.limiter, s.now);
  }

  // ---------- All workers ----------

  // One worker's sequencer with its random draws, and what happened to it.
  datatype Life = Life(born: Sequencer, samples: nat -> nat, events: seq<SequencerSpec.Event>)

  ghost predicate LivedTo(w: Life, r: Sequencer, o: PacingOptions, startAt: int) {
    FactoryLife(o, startAt, w.samples, w.born, w.events) && After(w.born, w.events) == r
  }

  // When createWorkers has worker i start.
  function WorkerStart(firstStart: int, i: nat, concurrency: nat, rps: nat): int
    requires concurrency > 0 && rps > 0
  {
    firstStart + InterWorkerDelay(concurrency, rps) * i
  }

  function TotalInitiated(rs: seq<Sequencer>): int {
    if rs == [] then 0 else TotalInitiated(rs[..|rs| - 1]) + rs[|rs| - 1].initiated
  }

  lemma {:induction false} TotalsCompare(rs: seq<Sequencer>, t: int, concurrency: nat, rps: nat)
    requires concurrency > 0 && rps > 0
    requires forall i :: 0 <= i < |rs| ==> rs[i].initiated <= WorkerQuota(t, i, concurrency, rps)
    ensures TotalInitiated(rs) <= TotalQuota(t, |rs|, concurrency, rps)
    ensures (forall i :: 0 <= i < |rs| ==> rs[i].initiated == WorkerQuota(t, i, concurrency, rps)) ==>
              TotalInitiated(rs) == TotalQuota(t, |rs|, concurrency, rps)
  {
    if rs != [] {
      hide WorkerQuota;
      TotalsCompare(rs[..|rs| - 1], t, concurrency, rps);
    }
  }

  lemma WorkerWithinQuota(w: Life, r: Sequencer, o: PacingOptions, firstStart: int, t: int, i: nat, concurrency: nat)
    requires o.rampTime.None? && o.rps > 0 && i < concurrency && r.now <= firstStart + t
    requires LivedTo(w, r, o, WorkerStart(firstStart, i, concurrency, o.rps))
    ensures r.initiated <= WorkerQuota(t, i, concurrency, o.rps)
  {
    hide After, FactoryLife, LinearQuota, InterWorkerDelay;
    var startAt := WorkerStart(firstStart, i, concurrency, o.rps);
    FactoryRunIsPaced(o, startAt, w.samples, w.born, w.events);
    if startAt <= r.now {
      var due := LinearQuota(r.now - startAt, o.rps);
      LinearQuotaIsMonotone(r.now - startAt, firstStart + t - startAt, o.rps);
      assert o.burst > 0 ==> o.burst * (due / o.burst) <= due;
    } else if startAt <= firstStart + t {
      LinearQuotaIsMonotone(0, firstStart + t - startAt, o.rps);
      QuotasStartAtZero(o.rps, 1);
    }
  }

  /** Over any lives of all workers, with any bursts and jitter, what they have initiated together t after
      the first start stays within one pacer at the combined rate, at most concurrency - 1 nanoseconds
      ahead of it, once all are due to have started. */
  lemma WorkersStayWithinCombinedPace(ws: seq<Life>, rs: seq<Sequencer>, o: PacingOptions, firstStart: int, t: int)
    requires o.rampTime.None? && o.rps > 0 && ws != [] && |rs| == |ws|
    requires t >= InterWorkerDelay(|ws|, o.rps) * (|ws| - 1)
    requires forall i :: 0 <= i < |ws| ==>
               LivedTo(ws[i], rs[i], o, WorkerStart(firstStart, i, |ws|, o.rps)) && rs[i].now <= firstStart + t
    ensures TotalInitiated(rs) <= CombinedQuota(t + (|ws| - 1), |ws|, o.rps)
  {
    hide LivedTo, WorkerQuota, TotalQuota, CombinedQuota, InterWorkerDelay, WorkerStart, TotalInitiated;
    forall i | 0 <= i < |rs| ensures rs[i].initiated <= WorkerQuota(t, i, |ws|, o.rps) {
      WorkerWithinQuota(ws[i], rs[i], o, firstStart, t, i, |ws|);
    }
    TotalsCompare(rs, t, |ws|, o.rps);
    WorkersInterleave(t, |ws|, o.rps);
  }

  // A worker whose clock started on schedule and whose run() at `now` was ended by the limiter.
  ghost predicate CaughtUpAt(w: Life, e: SequencerSpec.Event, r: Sequencer, o: PacingOptions, startAt: int, now: int) {
    && r.now == now && ClockStart(r.limiter) == Some(startAt)
    && FactoryLife(o, startAt, w.samples, w.born, w.events)
    && var s := After(w.born, w.events);
       && Enabled(s, e) && !e.TargetReports? && e.verdict == TerminationPredicates.PROCEED
       && LoopOf(s, e).1 == LimiterRefused && r == Next(s, e)
  }

  lemma WorkerMeetsQuota(w: Life, e: SequencerSpec.Event, r: Sequencer, o: PacingOptions, firstStart: int, t: int, i: nat, concurrency: nat)
    requires o.rampTime.None? && o.rps > 0 && o.burst == 0 && o.jitter == 0 && i < concurrency
    requires CaughtUpAt(w, e, r, o, WorkerStart(firstStart, i, concurrency, o.rps), firstStart + t)
    ensures r.initiated == WorkerQuota(t, i, concurrency, o.rps)
  {
    hide After, FactoryLife, LinearQuota, InterWorkerDelay, Enabled, LoopOf, Next;
    FactoryRunCatchesUp(o, WorkerStart(firstStart, i, concurrency, o.rps), w.samples, w.born, w.events, e);
  }

  /** Workers without bursts and jitter whose clocks started on schedule, each with a run() just ended by
      its limiter, have together initiated what one pacer at the combined rate would have, or at most
      what it would concurrency - 1 nanoseconds later; exactly that when the stagger is whole. */
  lemma WorkersKeepCombinedPace(ws: seq<Life>, es: seq<SequencerSpec.Event>, rs: seq<Sequencer>, o: PacingOptions, firstStart: int, t: int)
    requires o.rampTime.None? && o.rps > 0 && o.burst == 0 && o.jitter == 0 && ws != [] && |rs| == |ws| == |es|
    requires t >= InterWorkerDelay(|ws|, o.rps) * (|ws| - 1)
    requires forall i :: 0 <= i < |ws| ==>
               CaughtUpAt(ws[i], es[i], rs[i], o, WorkerStart(firstStart, i, |ws|, o.rps), firstStart + t)
    ensures CombinedQuota(t, |ws|, o.rps) <= TotalInitiated(rs) <= CombinedQuota(t + (|ws| - 1), |ws|, o.rps)
    ensures NANOS_PER_SECOND % (o.rps * |ws|) == 0 ==> TotalInitiated(rs) == CombinedQuota(t, |ws|, o.rps)
  {
    hide CaughtUpAt, WorkerQuota, TotalQuota, CombinedQuota, InterWorkerDelay, WorkerStart, TotalInitiated;
    forall i | 0 <= i < |rs| ensures rs[i].initiated == WorkerQuota(t, i, |ws|, o.rps) {
      WorkerMeetsQuota(ws[i], es[i], rs[i], o, firstStart, t, i, |ws|);
    }
    TotalsCompare(rs, t, |ws|, o.rps);
    WorkersInterleave(t, |ws|, o.rps);
  }

  // ---------- When a worker stops ----------

  /** With the chain the factory links: a run() stops the sequencer exactly when a threshold is exceeded,
      the duration is over or a stop was requested, counts a failure exactly when the flat rule says so,
      and otherwise leaves it running. */
  lemma RunStopsIff(o: TerminationPredicates.StopOptions, scheduledStart: int, w: TerminationPredicates.World,
                    s: Sequencer, birth: int, e: SequencerSpec.Event)
    requires SequencerInv(s, birth) && Enabled(s, e) && !e.TargetReports? && Accepts(s, e)
    requires e.verdict == TerminationPredicates.EvaluateRules(TerminationPredicates.FactoryRules(o, scheduledStart), w)
    ensures var r, rule := Next(s, e), TerminationPredicates.FlatRule(o, scheduledStart, w);
            && (r.exited <==> rule != TerminationPredicates.PROCEED)
            && (r.running <==> rule == TerminationPredicates.PROCEED)
            && r.failedTerminations == if rule == TerminationPredicates.FAIL then 1 else 0
  {
    TerminationPredicates.FactoryChainIsFlatRule(o, scheduledStart, w);
    hide TerminationPredicates.FlatRule, TerminationPredicates.EvaluateRules, TerminationPredicates.FactoryRules;
    NextKeepsInv(s, birth, e);
    RunLatches(s, birth, e);
  }

  lemma RunLatches(s: Sequencer, birth: int, e: SequencerSpec.Event)
    requires SequencerInv(s, birth) && Enabled(s, e) && !e.TargetReports?
    ensures Next(s, e).status == e.verdict && (e.verdict == TerminationPredicates.PROCEED ==> Next(s, e).running)
  {
    hide Drive, CountInv, BlockInv, Inv;
    if e.verdict == TerminationPredicates.PROCEED {
      AwokenIsReady(s, birth, e);
      DriveKeeps(Awoken(s, e).(now := s.now + e.after), birth, s.now + e.after, e.replies);
    }
  }
}
