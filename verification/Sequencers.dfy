/** SequencerImpl: drives target calls at the pace of its rate limiter, updating its fields in place.
    The clock, the predicate chain's verdict and the target's replies come in as parameters. */
module Sequencers {
  import opened Wrappers
  import opened LimiterSpec
  import opened Pacing
  import opened RateLimiters
  import opened TerminationPredicates
  import opened SequencerSpec
  import opened LoopReplies

  class SequencerImpl {
    const rateLimiter: RateLimiterPtr
    const idleStrategy: IdleStrategy
    var cachedTime: int
    var targetsInitiated: int
    var targetsCompleted: int
    var latencyStatistic: seq<int>
    var blockedStatistic: seq<int>
    var running: bool
    var periodicTimer: Timer
    var spinTimer: Timer
    var blocked: bool
    var blockedStart: int
    var lastTerminationStatus: Status
    var failedTerminations: int
    var dispatcherExited: bool
    ghost var outstanding: seq<int>
    ghost var blockedIntervals: seq<Interval>

    ghost predicate Valid()
      reads this
    {
      && rateLimiter.Valid() && this !in rateLimiter.Repr()
      && |blockedStatistic| == |blockedIntervals|
      && forall i :: 0 <= i < |blockedStatistic| ==> blockedStatistic[i] == blockedIntervals[i].to - blockedIntervals[i].from
    }

    ghost function Model(): (m: Sequencer)
      requires Valid()
      reads this, rateLimiter.Repr()
      ensures Configured(m.limiter)
    {
      Sequencer(rateLimiter.Model(), cachedTime, targetsInitiated, targetsCompleted, outstanding, latencyStatistic,
                running, periodicTimer, spinTimer, blocked, blockedStart, blockedIntervals, idleStrategy,
                lastTerminationStatus, failedTerminations, dispatcherExited)
    }

    constructor (rateLimiter: RateLimiterPtr, idleStrategy: IdleStrategy, now: int)
      requires rateLimiter.Valid() && Initial(rateLimiter.Model())
      ensures Valid() && this.rateLimiter == rateLimiter && this.idleStrategy == idleStrategy
      ensures Newborn(Model()) && Model().limiter == rateLimiter.Model() && cachedTime == now
    {
      this.rateLimiter, this.idleStrategy, cachedTime := rateLimiter, idleStrategy, now;
      targetsInitiated, targetsCompleted, latencyStatistic, blockedStatistic := 0, 0, [], [];
      running, periodicTimer, spinTimer := false, Idle, Idle;
      blocked, blockedStart := false, 0;
      lastTerminationStatus, failedTerminations, dispatcherExited := PROCEED, 0, false;
      outstanding, blockedIntervals := [], [];
    }

    method Start(after: nat, verdict: Status, replies: seq<Reply>)
      requires Valid() && Enabled(Model(), StartCalled(after, verdict, replies))
      modifies this, rateLimiter.Repr()
      ensures Valid() && Model() == Next(old(Model()), StartCalled(after, verdict, replies))
    {
      running := true;
      ScheduleRun();
      assert rateLimiter.Model() == old(rateLimiter.Model());
      assert Model() == old(Model()).(running := true, periodic := Armed);
      Run(false, after, verdict, replies);
    }

    method ScheduleRun()
      modifies this`periodicTimer
      ensures periodicTimer == Armed
    {
      periodicTimer := Armed;
    }

    method UnblockAndUpdateStatisticIfNeeded(now: int)
      requires Valid()
      modifies this`blocked, this`blockedStatistic, this`blockedIntervals
      ensures Valid() && Model() == Unblock(old(Model()), now)
    {
      if blocked {
        blocked := false;
        blockedStatistic := blockedStatistic + [now - blockedStart];
        blockedIntervals := blockedIntervals + [Interval(blockedStart, now)];
      }
    }

    method UpdateStartBlockingTimeIfNeeded()
      requires Valid()
      modifies this`blocked, this`blockedStart
      ensures Valid() && Model() == Block(old(Model()))
    {
      if !blocked {
        blocked := true;
        blockedStart := cachedTime;
      }
    }

    // The callback handed to the target by the run whose time sample was madeAt.
    method OnTargetComplete(madeAt: int, after: nat)
      requires Valid()
      modifies this`cachedTime, this`latencyStatistic, this`targetsCompleted, this`spinTimer
      ensures Valid() && Model() == Complete(old(Model()), madeAt, after)
    {
      hide RateLimiterPtr.Model, RateLimiterPtr.Valid, RateLimiterPtr.Repr, Configured;
      cachedTime := cachedTime + after;
      var dur := cachedTime - madeAt;
      latencyStatistic := latencyStatistic + [dur];
      targetsCompleted := targetsCompleted + 1;
      if running {
        spinTimer := Armed;
      }
      assert rateLimiter.Model() == old(rateLimiter.Model());
    }

    method ExecutionDuration() returns (duration: int)
      requires Valid()
      modifies rateLimiter.Repr()
      ensures Valid() && Model() == ReadDuration(old(Model()))
      ensures duration == ReadElapsed(old(rateLimiter.Model()), cachedTime).1
    {
      duration := rateLimiter.Elapsed(cachedTime);
    }

    method Stop(failed: bool)
      requires Valid()
      modifies this, rateLimiter.Repr()
      ensures Valid() && Model() == SequencerSpec.Stop(old(Model()), failed)
    {
      var rateOver := ExecutionDuration();
      TearDownTimers(failed);
      var ranFor := ExecutionDuration();
    }

    method TearDownTimers(failed: bool)
      requires Valid()
      modifies this
      ensures Valid() && Model() == TearDown(old(Model()), failed)
    {
      hide Unblock, Configured, ReadElapsed, RateLimiterPtr.Model, RateLimiterPtr.Valid, RateLimiterPtr.Repr;
      if failed {
        failedTerminations := failedTerminations + 1;
      }
      running := false;
      periodicTimer, spinTimer := Gone, Gone;
      dispatcherExited := true;
      assert rateLimiter.Model() == old(rateLimiter.Model());
      assert Valid() && Model() == old(Model()).(
        failedTerminations := old(failedTerminations) + (if failed then 1 else 0),
        running := false, periodic := Gone, spin := Gone, exited := true);
      UnblockAndUpdateStatisticIfNeeded(cachedTime);
    }

    method Run(fromPeriodicTimer: bool, after: nat, verdict: Status, replies: seq<Reply>)
      requires Valid()
      modifies this, rateLimiter.Repr()
      ensures Valid() && Model() == RunOnce(old(Model()), fromPeriodicTimer, after, verdict, replies)
    {
      hide Drive, SequencerSpec.Rearm, SequencerSpec.Stop, Configured, ReadElapsed;
      cachedTime := cachedTime + after;
      var now := cachedTime;
      lastTerminationStatus := if lastTerminationStatus == PROCEED then verdict else lastTerminationStatus;
      assert rateLimiter.Model() == old(rateLimiter.Model());
      if lastTerminationStatus != PROCEED {
        Stop(lastTerminationStatus == FAIL);
        return;
      }
      var end := AcquireAndStart(now, replies);
      Rearm(fromPeriodicTimer);
    }

    method Rearm(fromPeriodicTimer: bool)
      requires Valid()
      modifies this`periodicTimer, this`spinTimer
      ensures Valid() && Model() == SequencerSpec.Rearm(old(Model()), fromPeriodicTimer)
    {
      if fromPeriodicTimer {
        ScheduleRun();
      } else {
        if idleStrategy == SPIN && targetsInitiated == targetsCompleted {
          spinTimer := Armed;
        } else if idleStrategy == SLEEP {
          spinTimer := Armed;
        }
      }
    }

    // The acquisition loop of run().
    method AcquireAndStart(now: int, replies: seq<Reply>) returns (end: LoopEnd)
      requires Valid()
      modifies this, rateLimiter.Repr()
      ensures Valid() && (Model(), end) == Drive(old(Model()), now, replies)
      ensures 0 <= targetsInitiated - old(targetsInitiated) <= Leading(replies)
      ensures end != LimiterRefused ==> targetsInitiated - old(targetsInitiated) == Leading(replies)
    {
      LoopFollowsReplies(Model(), now, replies);
      ghost var outcome := Drive(Model(), now, replies);
      var i := 0;
      while true
        invariant Valid() && 0 <= i <= |replies|
        invariant Drive(Model(), now, replies[i..]) == outcome
        decreases |replies| - i
      {
        ghost var before := Model();
        var granted := rateLimiter.TryAcquireOne(cachedTime);
        if !granted {
          assert (Model(), LimiterRefused) == outcome;
          return LimiterRefused;
        }
        if i < |replies| && replies[i].Started? {
          StartTarget(now, replies[i].inline);
          assert replies[i..][1..] == replies[i + 1..];
          i := i + 1;
        } else {
          UpdateStartBlockingTimeIfNeeded();
          var accepted := rateLimiter.ReleaseOne(cachedTime);
          end := if accepted then TargetRefused else ReleaseRejected;
          assert (Model(), end) == outcome;
          return;
        }
      }
    }

    // The target was able to start; it may already have reported back.
    method StartTarget(now: int, inline: Option<nat>)
      requires Valid()
      modifies this
      ensures Valid() && Model() == BeginTarget(old(Model()), now, inline)
    {
      if inline.Some? {
        OnTargetComplete(now, inline.value);
      } else {
        outstanding := outstanding + [now];
      }
      UnblockAndUpdateStatisticIfNeeded(now);
      targetsInitiated := targetsInitiated + 1;
    }
  }
}
