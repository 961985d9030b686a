/** The sequencer's event loop as functions on values: every timer event, target reply and
    completion callback. The class in Sequencers follows these functions. */
module SequencerSpec {
  import opened Wrappers
  import opened LimiterSpec
  import opened Pacing
  import opened TerminationPredicates

  datatype IdleStrategy = SPIN | POLL | SLEEP

  // Both timers exist until stop() destroys them.
  datatype Timer = Gone | Idle | Armed

  // The target either refuses, or starts; a start may report back before the call returns (a
  // synchronous pool failure), some time later on the cached clock.
  datatype Reply = Refused | Started(inline: Option<nat>)

  // Why the acquisition loop ended.
  datatype LoopEnd = LimiterRefused | TargetRefused | ReleaseRejected

  datatype Interval = Interval(from: int, to: int)

  datatype Sequencer = Sequencer(
    limiter: Limiter,
    now: int,                 // the cached clock
    initiated: int,
    completed: int,
    outstanding: seq<int>,    // when each unfinished target call was made
    latencies: seq<int>,
    running: bool,
    periodic: Timer,
    spin: Timer,
    blocked: bool,
    blockedStart: int,
    blockedIntervals: seq<Interval>,
    idle: IdleStrategy,
    status: Status,
    failedTerminations: int,
    exited: bool)

  // ---------- The operations ----------

  function Unblock(s: Sequencer, now: int): Sequencer {
    if s.blocked then s.(blocked := false, blockedIntervals := s.blockedIntervals + [Interval(s.blockedStart, now)]) else s
  }

  function Block(s: Sequencer): Sequencer {
    if s.blocked then s else s.(blocked := true, blockedStart := s.now)
  }

  // The completion callback of a target call made at `madeAt`.
  function Complete(s: Sequencer, madeAt: int, after: nat): Sequencer {
    s.(now := s.now + after, latencies := s.latencies + [s.now + after - madeAt], completed := s.completed + 1,
       spin := if s.running then Armed else s.spin)
  }

  // executionDuration() asks the limiter for its elapsed time, which starts a clock not yet started.
  function ReadDuration(s: Sequencer): Sequencer {
    s.(limiter := ReadElapsed(s.limiter, s.now).0)
  }

  function TearDown(s: Sequencer, failed: bool): Sequencer {
    Unblock(s.(failedTerminations := s.failedTerminations + (if failed then 1 else 0),
               running := false, periodic := Gone, spin := Gone, exited := true), s.now)
  }

  function Stop(s: Sequencer, failed: bool): Sequencer {
    ReadDuration(TearDown(ReadDuration(s), failed))
  }

  // The acquisition loop; `now` is the local time sample of this run. A target that has no reply
  // left refuses.
  function Drive(s: Sequencer, now: int, replies: seq<Reply>): (r: (Sequencer, LoopEnd))
    requires Configured(s.limiter)
    ensures Configured(r.0.limiter)
    decreases |replies|
  {
    var (l, ok) := TryAcquire(s.limiter, s.now);
    var s1 := s.(limiter := l);
    if !ok then (s1, LimiterRefused)
    else if replies == [] || replies[0].Refused? then GiveBack(s1)
    else
      Drive(BeginTarget(s1, now, replies[0].inline), now, replies[1..])
  }

  function GiveBack(s: Sequencer): (r: (Sequencer, LoopEnd))
    ensures Configured(s.limiter) ==> Configured(r.0.limiter)
  {
    ReleaseConserves(s.limiter, s.now);
    var (l, accepted) := Release(s.limiter, s.now);
    (Block(s).(limiter := l), if accepted then TargetRefused else ReleaseRejected)
  }

  function BeginTarget(s: Sequencer, now: int, inline: Option<nat>): (r: Sequencer)
    ensures r.limiter == s.limiter
  {
    var s1 := if inline.Some? then Complete(s, now, inline.value) else s.(outstanding := s.outstanding + [now]);
    Unblock(s1, now).(initiated := s.initiated + 1)
  }

  // After the loop: keep the timers going.
  function Rearm(s: Sequencer, fromPeriodic: bool): Sequencer {
    if fromPeriodic then s.(periodic := Armed)
    else if (s.idle == SPIN && s.initiated == s.completed) || s.idle == SLEEP then s.(spin := Armed)
    else s
  }

  // run(): `after` passes on the clock first; `verdict` is what the predicate chain would say.
  function RunOnce(s: Sequencer, fromPeriodic: bool, after: nat, verdict: Status, replies: seq<Reply>): (r: Sequencer)
    requires Configured(s.limiter)
    ensures Configured(r.limiter)
  {
    var s0 := s.(now := s.now + after);
    var s1 := s0.(status := if s0.status == PROCEED then verdict else s0.status);
    if s1.status != PROCEED then
      ReadElapsedKeepsConfig(s1.limiter, s1.now);
      ReadElapsedKeepsConfig(ReadElapsed(s1.limiter, s1.now).0, s1.now);
      Stop(s1, s1.status == FAIL)
    else
      Rearm(Drive(s1, s1.now, replies).0, fromPeriodic)
  }

  // ---------- Events ----------

  datatype Event =
    | StartCalled(after: nat, verdict: Status, replies: seq<Reply>)
    | PeriodicFires(after: nat, verdict: Status, replies: seq<Reply>)
    | SpinFires(after: nat, verdict: Status, replies: seq<Reply>)
    | TargetReports(after: nat, call: nat)

  // What the dispatcher and the target may do next. start() is called once, a timer fires when it
  // is armed, and only an outstanding call reports back.
  predicate Enabled(s: Sequencer, e: Event) {
    match e
    case StartCalled(_, _, _) => !s.running && s.periodic == Idle
    case PeriodicFires(_, _, _) => s.periodic == Armed
    case SpinFires(_, _, _) => s.spin == Armed
    case TargetReports(_, call) => call < |s.outstanding|
  }

  // What start() sets, or the dispatcher when it fires a timer, before run() is called.
  function Awoken(s: Sequencer, e: Event): Sequencer
    requires !e.TargetReports?
  {
    match e
    case StartCalled(_, _, _) => s.(running := true, periodic := Armed)
    case PeriodicFires(_, _, _) => s.(periodic := Idle)
    case SpinFires(_, _, _) => s.(spin := Idle)
  }

  function Next(s: Sequencer, e: Event): (r: Sequencer)
    requires Configured(s.limiter) && Enabled(s, e)
    ensures Configured(r.limiter)
  {
    if e.TargetReports? then
      Complete(s, s.outstanding[e.call], e.after).(outstanding := s.outstanding[..e.call] + s.outstanding[e.call + 1..])
    else
      RunOnce(Awoken(s, e), e.PeriodicFires?, e.after, e.verdict, e.replies)
  }

  // The acquisition loop of the run() that an event starts, if the predicates say proceed.
  function LoopOf(s: Sequencer, e: Event): (r: (Sequencer, LoopEnd))
    requires Configured(s.limiter) && !e.TargetReports?
    ensures Configured(r.0.limiter)
  {
    Drive(Awoken(s, e).(now := s.now + e.after), s.now + e.after, e.replies)
  }

  predicate Possible(s: Sequencer, es: seq<Event>)
    requires Configured(s.limiter)
    decreases |es|
  {
    es == [] || (Enabled(s, es[0]) && Possible(Next(s, es[0]), es[1..]))
  }

  function After(s: Sequencer, es: seq<Event>): (r: Sequencer)
    requires Configured(s.limiter) && Possible(s, es)
    ensures Configured(r.limiter)
    decreases |es|
  {
    if es == [] then s else After(Next(s, es[0]), es[1..])
  }

  // As constructed: both timers exist, nothing is running.
  predicate Newborn(s: Sequencer) {
    && Initial(s.limiter)
    && s.initiated == 0 && s.completed == 0 && s.outstanding == [] && s.latencies == []
    && !s.running && s.periodic == Idle && s.spin == Idle
    && !s.blocked && s.blockedIntervals == []
    && s.status == PROCEED && s.failedTerminations == 0 && !s.exited
  }

  // No release of the event's run() is rejected; where one is, the process ends there.
  predicate Accepts(s: Sequencer, e: Event)
    requires Configured(s.limiter)
  {
    e.TargetReports? || e.verdict != PROCEED || LoopOf(s, e).1 != ReleaseRejected
  }

  predicate Intact(s: Sequencer, es: seq<Event>)
    requires Configured(s.limiter) && Possible(s, es)
    decreases |es|
  {
    es == [] || (Accepts(s, es[0]) && Intact(Next(s, es[0]), es[1..]))
  }

  // ---------- Invariants ----------

  // Timers, latched status and failure count, by phase of life.
  ghost predicate PhaseInv(s: Sequencer) {
    && (s.running ==> s.periodic == Armed && s.spin != Gone)
    && (!s.running ==> s.periodic == s.spin && s.periodic != Armed)
    && (s.periodic == Gone <==> s.exited)
    && (s.exited <==> s.status != PROCEED)
    && (s.exited ==> !s.running && !s.blocked)
    && (!s.exited && !s.running ==> s.initiated == 0 && !s.blocked && s.blockedIntervals == [])
    && s.failedTerminations == if s.status == FAIL then 1 else 0
  }

  // `held` permits have been granted for which no target call has been counted yet.
  ghost predicate CountInv(s: Sequencer, held: int) {
    && Inv(s.limiter, s.now)
    && s.initiated + held == Net(s.limiter)
    && s.completed + |s.outstanding| == s.initiated
    && |s.latencies| == s.completed
    && (forall i :: 0 <= i < |s.latencies| ==> s.latencies[i] >= 0)
    && (forall i :: 0 <= i < |s.outstanding| ==> s.outstanding[i] <= s.now)
  }

  // Consecutive intervals within [from, to].
  ghost predicate Intervals(xs: seq<Interval>, from: int, to: int)
    decreases |xs|
  {
    if xs == [] then from <= to
    else
      var last := xs[|xs| - 1];
      last.from <= last.to <= to && Intervals(xs[..|xs| - 1], from, last.from)
  }

  ghost predicate BlockInv(s: Sequencer, birth: int, until: int) {
    if s.blocked then s.blockedStart <= until && Intervals(s.blockedIntervals, birth, s.blockedStart)
    else Intervals(s.blockedIntervals, birth, until)
  }

  ghost predicate SequencerInv(s: Sequencer, birth: int) {
    PhaseInv(s) && CountInv(s, 0) && BlockInv(s, birth, s.now)
  }

  lemma IntervalsExtend(xs: seq<Interval>, from: int, to: int, later: int)
    requires Intervals(xs, from, to) && to <= later
    ensures Intervals(xs, from, later)
  {
  }

  lemma UnblockKeeps(s: Sequencer, birth: int, now: int)
    requires BlockInv(s, birth, now)
    ensures BlockInv(Unblock(s, now), birth, now) && !Unblock(s, now).blocked
  {
    var xs := s.blockedIntervals + [Interval(s.blockedStart, now)];
    assert xs[..|xs| - 1] == s.blockedIntervals;
  }

  lemma BlockInvExtends(s: Sequencer, birth: int, now: int, later: int)
    requires BlockInv(s, birth, now) && now <= later
    ensures BlockInv(s, birth, later)
  {
    if !s.blocked { IntervalsExtend(s.blockedIntervals, birth, now, later); }
  }

  // What the loop does not touch.
  predicate SamePhase(s: Sequencer, r: Sequencer) {
    && r.running == s.running && r.periodic == s.periodic && (r.spin == s.spin || (s.running && r.spin == Armed))
    && r.status == s.status && r.exited == s.exited && r.failedTerminations == s.failedTerminations && r.idle == s.idle
  }

  // A started target turns the permit in hand into one more initiated call.
  lemma BeginTargetKeeps(s: Sequencer, birth: int, now: int, inline: Option<nat>)
    requires now <= s.now && CountInv(s, 1) && BlockInv(s, birth, now)
    ensures var r := BeginTarget(s, now, inline); SamePhase(s, r) && s.now <= r.now && CountInv(r, 0) && BlockInv(r, birth, now)
  {
    var s1 := if inline.Some? then Complete(s, now, inline.value) else s.(outstanding := s.outstanding + [now]);
    UnblockKeeps(s1, birth, now);
    InvOutlastsTime(s.limiter, s.now, s1.now);
  }

  // The permit just granted goes back, if the stack takes it: the counts are as before the attempt.
  lemma GiveBackKeeps(s: Sequencer, birth: int)
    requires CountInv(s, 0) && BlockInv(s, birth, s.now) && TryAcquire(s.limiter, s.now).1
    ensures var (r, end) := GiveBack(s.(limiter := TryAcquire(s.limiter, s.now).0));
            && SamePhase(s, r) && r.now == s.now && end != LimiterRefused
            && (end == TargetRefused ==> CountInv(r, 0) && BlockInv(r, birth, r.now))
            && (end == TargetRefused && Eager(s.limiter) ==> r.initiated < Quota(r.limiter, r.now))
            && (ReleaseSafe(s.limiter) ==> end == TargetRefused)
  {
    var l := TryAcquire(s.limiter, s.now).0;
    TryKeepsInv(s.limiter, s.now);
    TryConserves(s.limiter, s.now);
    NetWithinQuota(s.limiter, s.now);
    ReleaseKeepsInv(l, s.now);
    ReleaseConserves(l, s.now);
    if Eager(s.limiter) { GrantsIffBelowQuota(s.limiter, s.now); }
    if ReleaseSafe(s.limiter) { GrantCanBeReleased(s.limiter, s.now); }
  }

  // One attempt leaves the counts right, with the permit in hand if there was one.
  lemma AttemptKeeps(s: Sequencer)
    requires CountInv(s, 0)
    ensures var (l, ok) := TryAcquire(s.limiter, s.now);
            && CountInv(s.(limiter := l), if ok then 1 else 0) && ReleaseSafe(l) == ReleaseSafe(s.limiter)
            && (Eager(s.limiter) ==> Eager(l) && (!ok ==> s.initiated == Quota(l, s.now)))
  {
    TryKeepsInv(s.limiter, s.now);
    TryConserves(s.limiter, s.now);
    TryKeepsBlank(s.limiter, s.now);
    SameShape(s.limiter, TryAcquire(s.limiter, s.now).0);
    if Eager(s.limiter) {
      GrantsIffBelowQuota(s.limiter, s.now);
      NetWithinQuota(s.limiter, s.now);
    }
  }

  ghost predicate Driven(s: Sequencer, r: Sequencer, end: LoopEnd, birth: int) {
    && SamePhase(s, r) && s.now <= r.now
    && (end != ReleaseRejected ==> CountInv(r, 0) && BlockInv(r, birth, r.now))
    && (ReleaseSafe(s.limiter) ==> end != ReleaseRejected)
    && (end == LimiterRefused && Eager(s.limiter) ==> r.initiated == Quota(r.limiter, r.now))
    && (end == TargetRefused && Eager(s.limiter) ==> r.initiated < Quota(r.limiter, r.now))
  }

  lemma DrivenOnwards(s: Sequencer, t: Sequencer, r: Sequencer, end: LoopEnd, birth: int)
    requires SamePhase(s, t) && s.now <= t.now && Driven(t, r, end, birth)
    requires (Eager(s.limiter) ==> Eager(t.limiter)) && (ReleaseSafe(s.limiter) ==> ReleaseSafe(t.limiter))
    ensures Driven(s, r, end, birth)
  {
  }

  /** The acquisition loop, however the target answers: every permit taken is either a counted
      call or given back, giving back is never rejected unless jitter sits on a burst, a loop that the
      limiter ended has started everything the quota allows, and one that the target ended less. */
  lemma {:induction false} DriveKeeps(s: Sequencer, birth: int, now: int, replies: seq<Reply>)
    requires now <= s.now && CountInv(s, 0) && BlockInv(s, birth, now)
    ensures var (r, end) := Drive(s, now, replies); Driven(s, r, end, birth)
    decreases |replies|
  {
    var (l, ok) := TryAcquire(s.limiter, s.now);
    var s1 := s.(limiter := l);
    AttemptKeeps(s);
    BlockInvExtends(s, birth, now, s.now);
    if ok {
      if replies == [] || replies[0].Refused? {
        GiveBackKeeps(s, birth);
      } else {
        BeginTargetKeeps(s1, birth, now, replies[0].inline);
        var s2 := BeginTarget(s1, now, replies[0].inline);
        DriveKeeps(s2, birth, now, replies[1..]);
        var (r, end) := Drive(s2, now, replies[1..]);
        DrivenOnwards(s, s2, r, end, birth);
      }
    }
  }

  lemma StopKeeps(s: Sequencer, birth: int, failed: bool)
    requires CountInv(s, 0) && BlockInv(s, birth, s.now)
    ensures var r := Stop(s, failed); CountInv(r, 0) && BlockInv(r, birth, r.now) && !r.blocked
  {
    var l1 := ReadElapsed(s.limiter, s.now).0;
    ReadElapsedKeepsInv(s.limiter, s.now);
    ReadElapsedKeepsInv(l1, s.now);
    UnblockKeeps(s, birth, s.now);
  }

  // About to run: started, not stopped, timers in place.
  ghost predicate ReadyToRun(s: Sequencer, birth: int, fromPeriodic: bool) {
    && CountInv(s, 0) && BlockInv(s, birth, s.now)
    && s.running && s.spin != Gone && s.periodic == (if fromPeriodic then Idle else Armed)
    && s.status == PROCEED && !s.exited && s.failedTerminations == 0
  }

  lemma TimePassesBeforeRun(s: Sequencer, birth: int, fromPeriodic: bool, after: nat)
    requires ReadyToRun(s, birth, fromPeriodic)
    ensures ReadyToRun(s.(now := s.now + after), birth, fromPeriodic)
  {
    InvOutlastsTime(s.limiter, s.now, s.now + after);
    BlockInvExtends(s, birth, s.now, s.now + after);
  }

  lemma StoppingRunKeeps(s: Sequencer, birth: int, fromPeriodic: bool, verdict: Status)
    requires ReadyToRun(s, birth, fromPeriodic) && verdict != PROCEED
    ensures SequencerInv(Stop(s.(status := verdict), verdict == FAIL), birth)
  {
    StopKeeps(s.(status := verdict), birth, verdict == FAIL);
  }

  lemma DrivingRunKeeps(s: Sequencer, birth: int, fromPeriodic: bool, replies: seq<Reply>)
    requires ReadyToRun(s, birth, fromPeriodic) && Drive(s, s.now, replies).1 != ReleaseRejected
    ensures SequencerInv(Rearm(Drive(s, s.now, replies).0, fromPeriodic), birth)
  {
    DriveKeeps(s, birth, s.now, replies);
  }

  lemma RunOnceKeeps(s: Sequencer, birth: int, fromPeriodic: bool, after: nat, verdict: Status, replies: seq<Reply>)
    requires ReadyToRun(s, birth, fromPeriodic)
    requires verdict == PROCEED ==> Drive(s.(now := s.now + after), s.now + after, replies).1 != ReleaseRejected
    ensures SequencerInv(RunOnce(s, fromPeriodic, after, verdict, replies), birth)
  {
    TimePassesBeforeRun(s, birth, fromPeriodic, after);
    var s0 := s.(now := s.now + after);
    if verdict != PROCEED {
      StoppingRunKeeps(s0, birth, fromPeriodic, verdict);
    } else {
      assert s0.(status := PROCEED) == s0;
      DrivingRunKeeps(s0, birth, fromPeriodic, replies);
    }
  }

  lemma CompletionKeeps(s: Sequencer, birth: int, after: nat, call: nat)
    requires SequencerInv(s, birth) && call < |s.outstanding|
    ensures SequencerInv(Next(s, TargetReports(after, call)), birth)
  {
    var r := Next(s, TargetReports(after, call));
    InvOutlastsTime(s.limiter, s.now, r.now);
    BlockInvExtends(s, birth, s.now, r.now);
  }

  lemma AwokenIsReady(s: Sequencer, birth: int, e: Event)
    requires SequencerInv(s, birth) && Enabled(s, e) && !e.TargetReports?
    ensures ReadyToRun(Awoken(s, e), birth, e.PeriodicFires?)
    ensures ReadyToRun(Awoken(s, e).(now := s.now + e.after), birth, e.PeriodicFires?)
  {
    hide Inv;
    TimePassesBeforeRun(Awoken(s, e), birth, e.PeriodicFires?, e.after);
  }

  /** Every event keeps the invariant. */
  lemma NextKeepsInv(s: Sequencer, birth: int, e: Event)
    requires SequencerInv(s, birth) && Enabled(s, e) && Accepts(s, e)
    ensures SequencerInv(Next(s, e), birth)
  {
    hide Drive, RunOnce, ReadyToRun, SequencerInv;
    if e.TargetReports? {
      CompletionKeeps(s, birth, e.after, e.call);
    } else {
      AwokenIsReady(s, birth, e);
      RunOnceKeeps(Awoken(s, e), birth, e.PeriodicFires?, e.after, e.verdict, e.replies);
    }
  }

  lemma {:induction false} AfterKeepsInv(s: Sequencer, birth: int, es: seq<Event>)
    requires SequencerInv(s, birth) && Possible(s, es) && Intact(s, es)
    ensures SequencerInv(After(s, es), birth)
    decreases |es|
  {
    if es != [] {
      NextKeepsInv(s, birth, es[0]);
      AfterKeepsInv(Next(s, es[0]), birth, es[1..]);
    }
  }

  /** Loop safety over whole lives, with any stack: from construction on, after any possible sequence of
      events that did not end the process, the timers, the counts, the latched status and the blocked
      intervals are consistent. */
  lemma EveryLifeIsSafe(s: Sequencer, es: seq<Event>)
    requires Newborn(s) && Possible(s, es) && Intact(s, es)
    ensures SequencerInv(After(s, es), s.now)
  {
    NewbornInv(s);
    AfterKeepsInv(s, s.now, es);
  }

  // No event rebuilds the stack.
  lemma {:induction false} DriveKeepsBlank(s: Sequencer, now: int, replies: seq<Reply>)
    requires Configured(s.limiter)
    ensures Blank(Drive(s, now, replies).0.limiter) == Blank(s.limiter)
    decreases |replies|
  {
    hide Blank, TryAcquire, Release;
    var (l, ok) := TryAcquire(s.limiter, s.now);
    TryKeepsBlank(s.limiter, s.now);
    ReleaseKeepsBlank(l, s.now);
    if ok && replies != [] && replies[0].Started? {
      DriveKeepsBlank(BeginTarget(s.(limiter := l), now, replies[0].inline), now, replies[1..]);
    }
  }

  lemma StopKeepsBlank(s: Sequencer, failed: bool)
    ensures Blank(Stop(s, failed).limiter) == Blank(s.limiter)
  {
    hide Blank, ReadElapsed, Unblock;
    ReadElapsedKeepsBlank(s.limiter, s.now);
    ReadElapsedKeepsBlank(ReadElapsed(s.limiter, s.now).0, s.now);
    assert Stop(s, failed).limiter == ReadElapsed(ReadElapsed(s.limiter, s.now).0, s.now).0 by { StopReadsTwice(s, failed); }
  }

  lemma StopReadsTwice(s: Sequencer, failed: bool)
    ensures Stop(s, failed).limiter == ReadElapsed(ReadElapsed(s.limiter, s.now).0, s.now).0
  {
    hide ReadElapsed;
  }

  lemma NextKeepsBlank(s: Sequencer, e: Event)
    requires Configured(s.limiter) && Enabled(s, e)
    ensures Blank(Next(s, e).limiter) == Blank(s.limiter)
  {
    hide Drive, Blank, Stop, Configured;
    if !e.TargetReports? {
      var s0 := Awoken(s, e).(now := s.now + e.after);
      var s1 := s0.(status := if s0.status == PROCEED then e.verdict else s0.status);
      DriveKeepsBlank(s1, s1.now, e.replies);
      StopKeepsBlank(s1, s1.status == FAIL);
    }
  }

  /** A stack without jitter on a burst takes every permit back: no life of it ends the process. */
  lemma {:induction false} SafeStacksStayIntact(s: Sequencer, birth: int, es: seq<Event>)
    requires SequencerInv(s, birth) && ReleaseSafe(s.limiter) && Possible(s, es)
    ensures Intact(s, es)
    decreases |es|
  {
    if es != [] {
      var e := es[0];
      assert Accepts(s, e) by { SafeStackAccepts(s, birth, e); }
      assert Configured(s.limiter);
      hide Next, Accepts, SequencerInv, ReleaseSafe, Configured, Blank, Enabled;
      NextKeepsInv(s, birth, e);
      NextKeepsBlank(s, e);
      SameShape(s.limiter, Next(s, e).limiter);
      SafeStacksStayIntact(Next(s, e), birth, es[1..]);
    }
  }

  lemma SafeStackAccepts(s: Sequencer, birth: int, e: Event)
    requires SequencerInv(s, birth) && ReleaseSafe(s.limiter) && Enabled(s, e)
    ensures Accepts(s, e)
  {
    hide Drive, ReleaseSafe, BlockInv;
    if !e.TargetReports? {
      AwokenIsReady(s, birth, e);
      DriveKeeps(Awoken(s, e).(now := s.now + e.after), birth, s.now + e.after, e.replies);
    }
  }

  lemma NewbornInv(s: Sequencer)
    requires Newborn(s)
    ensures SequencerInv(s, s.now)
  {
    InitialIsInv(s.limiter, s.now);
  }

  /** Pacing end to end: at any time of any life, the targets initiated are exactly the permits out
      and never exceed the quota of that time. */
  lemma InitiatedWithinQuota(s: Sequencer, es: seq<Event>)
    requires Newborn(s) && Possible(s, es) && Intact(s, es)
    ensures var r := After(s, es);
            r.initiated == Net(r.limiter) && 0 <= r.initiated <= Quota(r.limiter, r.now)
  {
    EveryLifeIsSafe(s, es);
    var r := After(s, es);
    NetWithinQuota(r.limiter, r.now);
  }

  // ---------- What one run() of a life does ----------

  lemma ProceedingRun(s: Sequencer, fromPeriodic: bool, after: nat, replies: seq<Reply>)
    requires Configured(s.limiter) && s.status == PROCEED
    ensures RunOnce(s, fromPeriodic, after, PROCEED, replies) ==
            Rearm(Drive(s.(now := s.now + after), s.now + after, replies).0, fromPeriodic)
  {
    hide Drive, Rearm, Stop;
    var s0 := s.(now := s.now + after);
    assert s0.(status := PROCEED) == s0;
  }

  /** At every return of a run() that was told to proceed: the counts are those its loop left, no release
      was rejected unless jitter sits on a burst, and without jitter the limiter ended the loop exactly when
      everything the quota of that moment allows has been initiated. */
  lemma RunUsesTheQuota(s: Sequencer, birth: int, e: Event)
    requires SequencerInv(s, birth) && Enabled(s, e) && !e.TargetReports? && e.verdict == PROCEED
    ensures var (d, end) := LoopOf(s, e); var r := Next(s, e);
            && r.limiter == d.limiter && r.now == d.now && r.initiated == d.initiated
            && (ReleaseSafe(s.limiter) ==> end != ReleaseRejected)
            && (Eager(s.limiter) && end != ReleaseRejected ==> (end == LimiterRefused <==> r.initiated == Quota(r.limiter, r.now)))
  {
    hide Drive, RunOnce, Quota, Eager, Configured, BlockInv;
    var awoken := Awoken(s, e);
    AwokenIsReady(s, birth, e);
    ProceedingRun(awoken, e.PeriodicFires?, e.after, e.replies);
    DriveKeeps(awoken.(now := s.now + e.after), birth, s.now + e.after, e.replies);
  }

  // Due to run again at once, without waiting for the periodic timer: always when idling by sleeping,
  // and when idling by spinning as long as nothing is outstanding.
  predicate Awake(s: Sequencer) {
    s.running && (s.idle == SLEEP || (s.idle == SPIN && s.outstanding == [])) ==> s.spin == Armed
  }

  lemma {:induction false} DriveStaysAwake(s: Sequencer, now: int, replies: seq<Reply>)
    requires Configured(s.limiter) && s.running && Awake(s)
    ensures var r := Drive(s, now, replies).0; r.running && r.idle == s.idle && Awake(r)
    decreases |replies|
  {
    var (l, ok) := TryAcquire(s.limiter, s.now);
    if ok && replies != [] && replies[0].Started? {
      DriveStaysAwake(BeginTarget(s.(limiter := l), now, replies[0].inline), now, replies[1..]);
    }
  }

  lemma RunStaysAwake(s: Sequencer, birth: int, fromPeriodic: bool, after: nat, verdict: Status, replies: seq<Reply>)
    requires ReadyToRun(s, birth, fromPeriodic) && (fromPeriodic ==> Awake(s))
    requires verdict == PROCEED ==> Drive(s.(now := s.now + after), s.now + after, replies).1 != ReleaseRejected
    ensures Awake(RunOnce(s, fromPeriodic, after, verdict, replies))
  {
    hide Drive, TryAcquire;
    if verdict == PROCEED {
      TimePassesBeforeRun(s, birth, fromPeriodic, after);
      var s0 := s.(now := s.now + after);
      ProceedingRun(s, fromPeriodic, after, replies);
      DriveKeeps(s0, birth, s0.now, replies);
      if fromPeriodic { DriveStaysAwake(s0, s0.now, replies); }
    }
  }

  lemma NextStaysAwake(s: Sequencer, birth: int, e: Event)
    requires SequencerInv(s, birth) && Enabled(s, e) && Accepts(s, e) && Awake(s)
    ensures Awake(Next(s, e))
  {
    hide RunOnce, ReadyToRun, Drive, SequencerInv;
    if !e.TargetReports? {
      AwokenIsReady(s, birth, e);
      RunStaysAwake(Awoken(s, e), birth, e.PeriodicFires?, e.after, e.verdict, e.replies);
    }
  }

  /** Through every life a sequencer that idles by sleeping, or by spinning with nothing outstanding,
      is due to run again at once: no event leaves it waiting for the periodic timer. */
  lemma {:induction false} NeverDozes(s: Sequencer, birth: int, es: seq<Event>)
    requires SequencerInv(s, birth) && Awake(s) && Possible(s, es) && Intact(s, es)
    ensures Awake(After(s, es))
    decreases |es|
  {
    if es != [] {
      NextKeepsInv(s, birth, es[0]);
      NextStaysAwake(s, birth, es[0]);
      NeverDozes(Next(s, es[0]), birth, es[1..]);
    }
  }

  /** Once stopped, only late callbacks remain possible, and they change nothing but the completion
      count, the latencies and the clock: no target is started, no timer touched, no second stop. */
  lemma {:induction false} StoppedStaysStopped(s: Sequencer, birth: int, es: seq<Event>)
    requires SequencerInv(s, birth) && s.exited && Possible(s, es)
    ensures var r := After(s, es);
            && (forall i :: 0 <= i < |es| ==> es[i].TargetReports?)
            && r == s.(now := r.now, outstanding := r.outstanding, latencies := r.latencies, completed := r.completed)
            && r.completed == s.completed + |es|
    decreases |es|
  {
    if es != [] {
      NextKeepsInv(s, birth, es[0]);
      StoppedStaysStopped(Next(s, es[0]), birth, es[1..]);
    }
  }

  function TotalBlocked(xs: seq<Interval>): int {
    if xs == [] then 0 else TotalBlocked(xs[..|xs| - 1]) + (xs[|xs| - 1].to - xs[|xs| - 1].from)
  }

  /** Blocked samples are non-negative, do not overlap, and add up to no more than the time passed. */
  lemma {:induction false} BlockedTimeIsBounded(xs: seq<Interval>, from: int, to: int)
    requires Intervals(xs, from, to)
    ensures 0 <= TotalBlocked(xs) <= to - from
    ensures forall i :: 0 <= i < |xs| ==> from <= xs[i].from <= xs[i].to <= to
    ensures forall i, j :: 0 <= i < j < |xs| ==> xs[i].to <= xs[j].from
    decreases |xs|
  {
    if xs != [] {
      var init, last := xs[..|xs| - 1], xs[|xs| - 1];
      BlockedTimeIsBounded(init, from, last.from);
      assert forall i :: 0 <= i < |init| ==> xs[i] == init[i];
    }
  }
}
