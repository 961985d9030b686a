/** What one run() does, told by the target's replies: how many calls it starts, what they report, and what
    is left outstanding, blocked and armed. */
module LoopReplies {
  import opened Wrappers
  import opened LimiterSpec
  import opened Pacing
  import opened SequencerSpec
  import TerminationPredicates

  // How many targets start before the first refusal; a target that has no reply left refuses.
  function Leading(replies: seq<Reply>): (n: nat)
    ensures n <= |replies| && forall i :: 0 <= i < n ==> replies[i].Started?
    ensures n < |replies| ==> replies[n].Refused?
  {
    if replies == [] || replies[0].Refused? then 0 else 1 + Leading(replies[1..])
  }

  predicate Inline(r: Reply) {
    r.Started? && r.inline.Some?
  }

  // The clock readings at which calls, begun at `clock` one after the other, report before they return.
  function ReportTimes(clock: int, calls: seq<Reply>): seq<int>
    decreases |calls|
  {
    if calls == [] then []
    else if Inline(calls[0]) then
      var at := clock + calls[0].inline.value;
      [at] + ReportTimes(at, calls[1..])
    else
      ReportTimes(clock, calls[1..])
  }

  function Latest(clock: int, times: seq<int>): int {
    if times == [] then clock else times[|times| - 1]
  }

  // Each report's distance from the time sample that its call was made with.
  function Since(sample: int, times: seq<int>): seq<int> {
    seq(|times|, i requires 0 <= i < |times| => times[i] - sample)
  }

  // One sample per call that has not reported back.
  function Samples(sample: int, calls: seq<Reply>): seq<int> {
    if calls == [] then []
    else (if Inline(calls[0]) then [] else [sample]) + Samples(sample, calls[1..])
  }

  // From s to r by starting exactly `calls`, all made with the time sample `now`.
  ghost predicate Started(s: Sequencer, r: Sequencer, now: int, calls: seq<Reply>) {
    var times := ReportTimes(s.now, calls);
    && r.initiated == s.initiated + |calls|
    && r.completed == s.completed + |times|
    && r.now == Latest(s.now, times)
    && r.latencies == s.latencies + Since(now, times)
    && r.outstanding == s.outstanding + Samples(now, calls)
    && r.spin == (if s.running && times != [] then Armed else s.spin)
    && r.running == s.running && r.idle == s.idle
  }

  lemma TimesOnwards(clock: int, call: Reply, calls: seq<Reply>)
    ensures var first := ReportTimes(clock, [call]); var later := Latest(clock, first);
      && ReportTimes(clock, [call] + calls) == first + ReportTimes(later, calls)
      && Latest(later, ReportTimes(later, calls)) == Latest(clock, first + ReportTimes(later, calls))
  {
    var all := [call] + calls;
    assert all[1..] == calls && [call][1..] == [];
    if Inline(call) {
      assert ReportTimes(clock, [call]) == [clock + call.inline.value];
    } else {
      assert ReportTimes(clock, [call]) == [];
    }
  }

  lemma SamplesOnwards(sample: int, call: Reply, calls: seq<Reply>)
    ensures Samples(sample, [call] + calls) == Samples(sample, [call]) + Samples(sample, calls)
  {
    var all := [call] + calls;
    assert all[1..] == calls && [call][1..] == [];
  }

  lemma SinceJoins(sample: int, a: seq<int>, b: seq<int>)
    ensures Since(sample, a + b) == Since(sample, a) + Since(sample, b)
  {
  }

  lemma StartedOnwards(s: Sequencer, t: Sequencer, r: Sequencer, now: int, call: Reply, calls: seq<Reply>)
    requires Started(s, t, now, [call]) && Started(t, r, now, calls)
    ensures Started(s, r, now, [call] + calls)
  {
    hide ReportTimes, Samples, Since, Latest;
    var first, rest := ReportTimes(s.now, [call]), ReportTimes(t.now, calls);
    TimesOnwards(s.now, call, calls);
    SamplesOnwards(now, call, calls);
    SinceJoins(now, first, rest);
  }

  lemma BeginStarts(s: Sequencer, now: int, call: Reply)
    requires call.Started?
    ensures Started(s, BeginTarget(s, now, call.inline), now, [call])
  {
    var r := BeginTarget(s, now, call.inline);
    assert [call][1..] == [];
    if Inline(call) {
      var times := [s.now + call.inline.value];
      assert ReportTimes(s.now, [call]) == times;
      assert Since(now, times) == [s.now + call.inline.value - now];
      assert Samples(now, [call]) == [];
    } else {
      assert ReportTimes(s.now, [call]) == [];
      assert Samples(now, [call]) == [now];
    }
  }

  /** The loop starts the leading targets in order, each call stamped with the run's time sample and each
      inline report recorded from it: all of them up to the refusal, unless the limiter ends the loop sooner. */
  lemma {:induction false} LoopFollowsReplies(s: Sequencer, now: int, replies: seq<Reply>)
    requires Configured(s.limiter)
    ensures var (r, end) := Drive(s, now, replies); var n := r.initiated - s.initiated;
      && 0 <= n <= Leading(replies) && (end != LimiterRefused ==> n == Leading(replies))
      && Started(s, r, now, replies[..n])
    decreases |replies|
  {
    hide TryAcquire, Release, Configured, BeginTarget, ReportTimes, Samples, Since, Latest;
    var (l, ok) := TryAcquire(s.limiter, s.now);
    var s1 := s.(limiter := l);
    if ok && replies != [] && replies[0].Started? {
      var s2 := BeginTarget(s1, now, replies[0].inline);
      BeginStarts(s1, now, replies[0]);
      LoopFollowsReplies(s2, now, replies[1..]);
      var r := Drive(s2, now, replies[1..]).0;
      var k := r.initiated - s2.initiated;
      StartedOnwards(s1, s2, r, now, replies[0], replies[1..][..k]);
      assert [replies[0]] + replies[1..][..k] == replies[..k + 1];
    } else {
      NothingStarted(s, now);
      assert replies[..0] == [];
    }
  }

  lemma NothingStarted(s: Sequencer, now: int)
    ensures Started(s, s, now, [])
  {
  }

  /** A refusing target leaves the sequencer blocked, since its own time unless it was blocked all along; a
      started one ends the blocked interval at the run's time sample, once. */
  lemma {:induction false} LoopBlocks(s: Sequencer, now: int, replies: seq<Reply>)
    requires Configured(s.limiter)
    ensures var (r, end) := Drive(s, now, replies); var n := r.initiated - s.initiated;
      && n >= 0
      && r.blocked == (end != LimiterRefused || (s.blocked && n == 0))
      && (r.blocked ==> r.blockedStart == if s.blocked && n == 0 then s.blockedStart else r.now)
      && r.blockedIntervals == s.blockedIntervals + (if s.blocked && n > 0 then [Interval(s.blockedStart, now)] else [])
    decreases |replies|
  {
    hide TryAcquire, Release, Configured;
    var (l, ok) := TryAcquire(s.limiter, s.now);
    if ok && replies != [] && replies[0].Started? {
      LoopBlocks(BeginTarget(s.(limiter := l), now, replies[0].inline), now, replies[1..]);
    }
  }

  // ---------- Events ----------

  // When the spin timer is armed after a run() that did not come from the periodic timer.
  predicate RunsAgainAtOnce(r: Sequencer) {
    r.idle == SLEEP || (r.idle == SPIN && r.outstanding == [])
  }

  // From s, about to run at `now`, to d when the loop is over.
  ghost predicate LoopedTo(s: Sequencer, d: Sequencer, now: int, replies: seq<Reply>, refused: bool) {
    var n := d.initiated - s.initiated;
    && 0 <= n <= Leading(replies) && (refused ==> n == Leading(replies))
    && var times := ReportTimes(now, replies[..n]);
       && d.now == Latest(now, times) && d.completed == s.completed + |times|
       && d.latencies == s.latencies + Since(now, times) && d.outstanding == s.outstanding + Samples(now, replies[..n])
       && d.blocked == (refused || (s.blocked && n == 0))
       && (d.blocked ==> d.blockedStart == if s.blocked && n == 0 then s.blockedStart else d.now)
       && d.blockedIntervals == s.blockedIntervals + (if s.blocked && n > 0 then [Interval(s.blockedStart, now)] else [])
  }

  lemma LoopOutcome(s: Sequencer, now: int, replies: seq<Reply>)
    requires Configured(s.limiter) && s.now == now && Drive(s, now, replies).1 != ReleaseRejected
    ensures var (d, end) := Drive(s, now, replies);
            && LoopedTo(s, d, now, replies, end == TargetRefused)
            && d.spin == if s.running && ReportTimes(now, replies[..d.initiated - s.initiated]) != [] then Armed else s.spin
  {
    hide Drive, ReportTimes, Samples, Configured;
    LoopFollowsReplies(s, now, replies);
    LoopBlocks(s, now, replies);
  }

  lemma RunIsRearmedLoop(s: Sequencer, birth: int, e: SequencerSpec.Event)
    requires SequencerInv(s, birth) && Enabled(s, e) && !e.TargetReports? && e.verdict == TerminationPredicates.PROCEED
    ensures Configured(s.limiter) && Next(s, e) == Rearm(LoopOf(s, e).0, e.PeriodicFires?)
  {
    hide *;
    assert Configured(s.limiter) && s.status == TerminationPredicates.PROCEED by { RunsOnlyWhileProceeding(s, birth, e); }
    UnstoppedRun(s, e);
  }

  lemma RunsOnlyWhileProceeding(s: Sequencer, birth: int, e: SequencerSpec.Event)
    requires SequencerInv(s, birth) && Enabled(s, e) && !e.TargetReports?
    ensures Configured(s.limiter) && s.status == TerminationPredicates.PROCEED && Awoken(s, e).running
    ensures e.PeriodicFires? || (Awoken(s, e).spin == Idle && Awoken(s, e).periodic == Armed)
  {
    hide Net, Quota, BlockInv;
  }

  lemma UnstoppedRun(s: Sequencer, e: SequencerSpec.Event)
    requires Configured(s.limiter) && s.status == TerminationPredicates.PROCEED
    requires Enabled(s, e) && !e.TargetReports? && e.verdict == TerminationPredicates.PROCEED
    ensures Next(s, e) == Rearm(LoopOf(s, e).0, e.PeriodicFires?)
  {
    hide Drive, RunOnce, Rearm, Configured;
    ProceedingRun(Awoken(s, e), e.PeriodicFires?, e.after, e.replies);
  }

  // The timers and counts that the loop of an event leaves.
  lemma LoopKeepsTimers(s: Sequencer, birth: int, e: SequencerSpec.Event)
    requires SequencerInv(s, birth) && Enabled(s, e) && !e.TargetReports? && LoopOf(s, e).1 != ReleaseRejected
    ensures var d := LoopOf(s, e).0;
            d.running && d.periodic == Awoken(s, e).periodic && d.idle == s.idle && d.completed + |d.outstanding| == d.initiated
  {
    hide Drive, BlockInv, Inv;
    AwokenIsReady(s, birth, e);
    DriveKeeps(Awoken(s, e).(now := s.now + e.after), birth, s.now + e.after, e.replies);
  }

  /** One run() told to proceed, in any state a life can reach: it starts a prefix of the leading targets, all
      of them unless the limiter ended the loop; latencies, outstanding calls and clock follow from the
      replies; it ends blocked exactly when a target refused, or nothing started while blocked; the
      periodic timer is armed, and the spin timer exactly when a report came in, when the periodic timer
      found it armed, or when the idle strategy asks to run again at once. */
  lemma RunFollowsReplies(s: Sequencer, birth: int, e: SequencerSpec.Event)
    requires SequencerInv(s, birth) && Enabled(s, e) && !e.TargetReports? && e.verdict == TerminationPredicates.PROCEED && Accepts(s, e)
    ensures var r := Next(s, e);
      && LoopedTo(s, r, s.now + e.after, e.replies, LoopOf(s, e).1 == TargetRefused)
      && r.running && r.periodic == Armed
      && (r.spin == Armed <==>
            || ReportTimes(s.now + e.after, e.replies[..r.initiated - s.initiated]) != []
            || (if e.PeriodicFires? then s.spin == Armed else RunsAgainAtOnce(r)))
  {
    hide Drive, Next, SequencerInv, Configured, LoopedTo, ReportTimes;
    var s0 := Awoken(s, e).(now := s.now + e.after);
    RunsOnlyWhileProceeding(s, birth, e);
    RunIsRearmedLoop(s, birth, e);
    LoopOutcome(s0, s0.now, e.replies);
    LoopKeepsTimers(s, birth, e);
    SameCounts(s, s0, LoopOf(s, e).0, Next(s, e), s0.now, e.replies, LoopOf(s, e).1 == TargetRefused);
  }

  // Timers do not enter into what a loop did.
  lemma SameCounts(s: Sequencer, s0: Sequencer, d: Sequencer, r: Sequencer, now: int, replies: seq<Reply>, refused: bool)
    requires LoopedTo(s0, d, now, replies, refused)
    requires s0 == s.(now := s0.now, running := s0.running, periodic := s0.periodic, spin := s0.spin)
    requires r == d.(periodic := r.periodic, spin := r.spin)
    ensures LoopedTo(s, r, now, replies, refused)
  {
    hide ReportTimes, Samples, Since, Latest;
  }

  /** One run() told to stop starts and completes nothing; it closes an open blocked interval at its own time
      and leaves nothing armed. */
  lemma StoppingRunEnds(s: Sequencer, birth: int, e: SequencerSpec.Event)
    requires SequencerInv(s, birth) && Enabled(s, e) && !e.TargetReports? && e.verdict != TerminationPredicates.PROCEED
    ensures var r, now := Next(s, e), s.now + e.after;
      && r.now == now && r.initiated == s.initiated && r.completed == s.completed
      && r.latencies == s.latencies && r.outstanding == s.outstanding
      && r.blockedIntervals == s.blockedIntervals + (if s.blocked then [Interval(s.blockedStart, now)] else [])
      && !r.blocked && !r.running && r.exited && r.periodic == Gone && r.spin == Gone && r.status == e.verdict
  {
    hide Drive, ReadElapsed, CountInv, BlockInv;
  }

  /** A late report records the time from its own call to now, takes exactly that call out of those
      outstanding, and wakes a sequencer that still runs. */
  lemma ReportTakesItsCall(s: Sequencer, e: SequencerSpec.Event)
    requires Configured(s.limiter) && e.TargetReports? && Enabled(s, e)
    ensures var r, madeAt := Next(s, e), s.outstanding[e.call];
      && r.now == s.now + e.after && r.latencies == s.latencies + [r.now - madeAt]
      && multiset(r.outstanding) + multiset{madeAt} == multiset(s.outstanding)
      && r.completed == s.completed + 1 && r.initiated == s.initiated && r.limiter == s.limiter
      && r.spin == if s.running then Armed else s.spin
  {
    var before, after := s.outstanding[..e.call], s.outstanding[e.call + 1..];
    assert s.outstanding == before + [s.outstanding[e.call]] + after;
  }
}
