/** The updater's step handler: a tracker of step statuses, changed in place by a loop that calls
    itself after an agent has repaired a failing step. */
module StepTracker {
  const MAX_AGENT_ATTEMPTS: nat := 3

  datatype Status = Pending | Success | Failed | Cancelled | NotPlanned

  // How a step's body ends; it may first mark later steps as not planned.
  datatype Ending = Returns | RaisesCaught | RaisesUncaught

  datatype Body = Body(notPlanned: set<nat>, ending: Ending)

  // Everything outside the handler: the bodies, and whether the agent's k-th invocation succeeds.
  datatype World = World(bodies: seq<Body>, agent: bool, agentSucceeds: nat -> bool)

  // A body marks only steps after its own.
  ghost predicate LooksAhead(w: World) {
    forall i, k :: 0 <= i < |w.bodies| && k in w.bodies[i].notPlanned ==> i < k < |w.bodies|
  }

  // ---------- The setters ----------

  function Restore(s: Status): Status { if s == Cancelled then Pending else s }
  function Cancel(s: Status): Status { if s == Pending then Cancelled else s }

  function Succeed(t: seq<Status>, step: nat): (r: seq<Status>)
    requires step < |t|
    ensures |r| == |t| && r[step] == Success
  {
    seq(|t|, i requires 0 <= i < |t| => if i == step then Success else Restore(t[i]))
  }

  function Fail(t: seq<Status>, step: nat): (r: seq<Status>)
    requires step < |t|
    ensures |r| == |t| && r[step] == Failed
  {
    seq(|t|, i requires 0 <= i < |t| => if i == step then Failed else Cancel(t[i]))
  }

  function Mark(t: seq<Status>, notPlanned: set<nat>): (r: seq<Status>)
    ensures |r| == |t|
  {
    seq(|t|, i requires 0 <= i < |t| => if i in notPlanned then NotPlanned else t[i])
  }

  // ---------- One pass, without recursion ----------

  // ran: the steps whose bodies ran, in order.
  datatype Outcome = Outcome(tracker: seq<Status>, ran: seq<nat>, agentCalls: nat, raised: bool)

  function Prepend(step: nat, calls: nat, o: Outcome): Outcome {
    o.(ran := [step] + o.ran, agentCalls := o.agentCalls + calls)
  }

  // From step i on, after some invocations of the agent.
  function Walk(w: World, t: seq<Status>, i: nat, attempts: nat): Outcome
    requires |t| == |w.bodies| && i <= |t|
    decreases |t| - i
  {
    if i == |t| then Outcome(t, [], 0, false)
    else if t[i] != Pending then Walk(w, t, i + 1, attempts)
    else
      var marked := Mark(t, w.bodies[i].notPlanned);
      match w.bodies[i].ending
      case RaisesUncaught => Outcome(marked, [i], 0, true)
      case Returns => Prepend(i, 0, Walk(w, Succeed(marked, i), i + 1, attempts))
      case RaisesCaught =>
        var failed := Fail(marked, i);
        if w.agent && attempts < MAX_AGENT_ATTEMPTS then
          if w.agentSucceeds(attempts) then Prepend(i, 1, Walk(w, Succeed(failed, i), i + 1, attempts + 1))
          else Outcome(failed, [i], 1, true)
        else Prepend(i, 0, Walk(w, failed, i + 1, attempts))
  }

  // One step of the pass, so that proofs need not unfold it further.
  lemma WalkStep(w: World, t: seq<Status>, i: nat, attempts: nat)
    requires |t| == |w.bodies| && i < |t| && t[i] == Pending
    ensures var marked := Mark(t, w.bodies[i].notPlanned);
            var failed := Fail(marked, i);
            Walk(w, t, i, attempts) ==
            match w.bodies[i].ending
            case RaisesUncaught => Outcome(marked, [i], 0, true)
            case Returns => Prepend(i, 0, Walk(w, Succeed(marked, i), i + 1, attempts))
            case RaisesCaught =>
              if !w.agent || attempts >= MAX_AGENT_ATTEMPTS then Prepend(i, 0, Walk(w, failed, i + 1, attempts))
              else if w.agentSucceeds(attempts) then Prepend(i, 1, Walk(w, Succeed(failed, i), i + 1, attempts + 1))
              else Outcome(failed, [i], 1, true)
  {
  }

  // ---------- What the pass establishes ----------

  predicate Settled(s: Status) { s == Success || s == NotPlanned }

  // Not failed yet: settled before i, to do or not planned from i on.
  ghost predicate Going(t: seq<Status>, i: nat) {
    && i <= |t|
    && (forall k :: 0 <= k < i ==> Settled(t[k]))
    && (forall k :: i <= k < |t| ==> t[k] == Pending || t[k] == NotPlanned)
  }

  // Failed at f for good.
  ghost predicate Halted(t: seq<Status>, f: nat) {
    && f < |t| && t[f] == Failed
    && (forall k :: 0 <= k < f ==> Settled(t[k]))
    && (forall k :: f < k < |t| ==> t[k] == Cancelled || t[k] == NotPlanned)
  }

  ghost predicate Increasing(s: seq<nat>, from: nat, to: nat) {
    && (forall i :: 0 <= i < |s| ==> from <= s[i] < to)
    && (forall i, j :: 0 <= i < j < |s| ==> s[i] < s[j])
  }

  // From step i on, the bodies that ran are those of the steps that succeeded or failed.
  ghost predicate RanIffReported(o: Outcome, i: nat) {
    forall k :: i <= k < |o.tracker| ==> (k in o.ran <==> o.tracker[k] == Success || o.tracker[k] == Failed)
  }

  // What one run leaves: bodies run once each and in order, the agent called within its limit, and
  // unless an exception escaped, every step settled, or one failed and the rest cancelled.
  ghost predicate WellRun(o: Outcome, i: nat, attempts: nat) {
    && Increasing(o.ran, i, |o.tracker|)
    && o.agentCalls <= MAX_AGENT_ATTEMPTS - attempts
    && (!o.raised ==> Going(o.tracker, |o.tracker|) || (o.ran != [] && Halted(o.tracker, o.ran[|o.ran| - 1])))
    && (!o.raised ==> RanIffReported(o, i))
  }

  lemma {:induction false} NothingPending(w: World, t: seq<Status>, i: nat, attempts: nat)
    requires |t| == |w.bodies| && i <= |t| && forall k :: i <= k < |t| ==> t[k] != Pending
    ensures Walk(w, t, i, attempts) == Outcome(t, [], 0, false)
    decreases |t| - i
  {
    if i < |t| { NothingPending(w, t, i + 1, attempts); }
  }

  lemma BodyFails(w: World, t: seq<Status>, i: nat)
    requires |t| == |w.bodies| && LooksAhead(w) && Going(t, i) && i < |t| && t[i] == Pending
    ensures Halted(Fail(Mark(t, w.bodies[i].notPlanned), i), i)
    ensures Going(Succeed(Fail(Mark(t, w.bodies[i].notPlanned), i), i), i + 1)
    ensures Going(Succeed(Mark(t, w.bodies[i].notPlanned), i), i + 1)
  {
  }

  lemma PrependIsWellRun(o: Outcome, i: nat, calls: nat, attempts: nat)
    requires WellRun(o, i + 1, attempts + calls) && i < |o.tracker| && (!o.raised ==> o.tracker[i] == Success)
    requires calls <= 1 && attempts + calls <= MAX_AGENT_ATTEMPTS
    ensures WellRun(Prepend(i, calls, o), i, attempts) && |Prepend(i, calls, o).tracker| == |o.tracker|
  {
  }

  lemma WidenIsWellRun(o: Outcome, i: nat, attempts: nat)
    requires WellRun(o, i + 1, attempts) && i < |o.tracker| && (!o.raised ==> o.tracker[i] == NotPlanned)
    ensures WellRun(o, i, attempts)
  {
  }

  // A pass leaves the steps before it as they are, once settled.
  lemma {:induction false} SettledStays(w: World, t: seq<Status>, i: nat, attempts: nat, k: nat)
    requires |t| == |w.bodies| && LooksAhead(w) && k < i <= |t| && Settled(t[k])
    ensures |Walk(w, t, i, attempts).tracker| == |t| && Walk(w, t, i, attempts).tracker[k] == t[k]
    decreases |t| - i
  {
    if i < |t| {
      var marked := Mark(t, w.bodies[i].notPlanned);
      var failed := Fail(marked, i);
      if t[i] != Pending {
        SettledStays(w, t, i + 1, attempts, k);
      } else if w.bodies[i].ending == Returns {
        SettledStays(w, Succeed(marked, i), i + 1, attempts, k);
      } else if w.bodies[i].ending == RaisesCaught {
        SettledStays(w, Succeed(failed, i), i + 1, attempts + 1, k);
        SettledStays(w, failed, i + 1, attempts, k);
      }
    }
  }

  lemma WalkEnds(w: World, t: seq<Status>, attempts: nat)
    requires |t| == |w.bodies| && Going(t, |t|) && attempts <= MAX_AGENT_ATTEMPTS
    ensures Walk(w, t, |t|, attempts) == Outcome(t, [], 0, false) && WellRun(Outcome(t, [], 0, false), |t|, attempts)
  {
  }

  lemma WalkSkips(w: World, t: seq<Status>, i: nat, attempts: nat)
    requires |t| == |w.bodies| && i < |t| && t[i] != Pending
    ensures Walk(w, t, i, attempts) == Walk(w, t, i + 1, attempts)
  {
  }

  // The run ends with the body of step i, whose failure stands or escapes.
  lemma StopIsWellRun(t: seq<Status>, i: nat, calls: nat, attempts: nat, raised: bool)
    requires i < |t| && attempts + calls <= MAX_AGENT_ATTEMPTS && (!raised ==> Halted(t, i))
    ensures WellRun(Outcome(t, [i], calls, raised), i, attempts)
    ensures Prepend(i, 0, Outcome(t, [], 0, raised)) == Outcome(t, [i], 0, raised)
  {
  }

  lemma {:induction false} WalkIsWellRun(w: World, t: seq<Status>, i: nat, attempts: nat)
    requires |t| == |w.bodies| && LooksAhead(w) && Going(t, i) && attempts <= MAX_AGENT_ATTEMPTS
    ensures WellRun(Walk(w, t, i, attempts), i, attempts) && |Walk(w, t, i, attempts).tracker| == |t|
    decreases |t| - i
  {
    hide Walk, Mark, Fail, Succeed, Prepend, Increasing, RanIffReported, LooksAhead;
    if i == |t| {
      WalkEnds(w, t, attempts);
    } else if t[i] != Pending {
      WalkSkips(w, t, i, attempts);
      WalkIsWellRun(w, t, i + 1, attempts);
      SettledStays(w, t, i + 1, attempts, i);
      WidenIsWellRun(Walk(w, t, i + 1, attempts), i, attempts);
    } else {
      BodyFails(w, t, i);
      WalkStep(w, t, i, attempts);
      var marked := Mark(t, w.bodies[i].notPlanned);
      var failed := Fail(marked, i);
      match w.bodies[i].ending
      case RaisesUncaught => StopIsWellRun(marked, i, 0, attempts, true);
      case Returns =>
        WalkIsWellRun(w, Succeed(marked, i), i + 1, attempts);
        SettledStays(w, Succeed(marked, i), i + 1, attempts, i);
        PrependIsWellRun(Walk(w, Succeed(marked, i), i + 1, attempts), i, 0, attempts);
      case RaisesCaught =>
        if w.agent && attempts < MAX_AGENT_ATTEMPTS {
          if w.agentSucceeds(attempts) {
            WalkIsWellRun(w, Succeed(failed, i), i + 1, attempts + 1);
            SettledStays(w, Succeed(failed, i), i + 1, attempts + 1, i);
            PrependIsWellRun(Walk(w, Succeed(failed, i), i + 1, attempts + 1), i, 1, attempts);
          } else {
            StopIsWellRun(failed, i, 1, attempts, true);
          }
        } else {
          NothingPending(w, failed, i + 1, attempts);
          StopIsWellRun(failed, i, 0, attempts, false);
        }
    }
  }

  // ---------- What a caller can rely on ----------

  predicate IsClean(t: seq<Status>) { forall k :: 0 <= k < |t| ==> Settled(t[k]) }

  function AllPending(n: nat): seq<Status> { seq(n, _ => Pending) }

  /** For any steps and any agent, from any tracker whose steps are pending or not planned: each body runs
      at most once and in order, and the agent at most three times in all. If no exception escapes, no step is
      left pending; either all are settled, or exactly one failed, the last to run, with settled ones
      before it and cancelled or unplanned ones after; and the results are clean exactly when none failed. */
  lemma EveryRunIsSound(w: World, t: seq<Status>)
    requires LooksAhead(w) && |t| == |w.bodies| && Going(t, 0)
    ensures var o := Walk(w, t, 0, 0);
      && WellRun(o, 0, 0) && |o.tracker| == |w.bodies| && o.agentCalls <= 3
      && (!o.raised ==> Pending !in o.tracker && (IsClean(o.tracker) <==> Failed !in o.tracker))
  {
    hide Walk;
    WalkIsWellRun(w, t, 0, 0);
  }

  // ---------- What the agent does ----------

  predicate RaisedAt(w: World, step: nat) { step < |w.bodies| && w.bodies[step].ending == RaisesCaught }

  // How many of the bodies that ran ended in an exception the handler catches.
  function Caught(w: World, ran: seq<nat>): nat {
    if ran == [] then 0 else (if RaisedAt(w, ran[0]) then 1 else 0) + Caught(w, ran[1..])
  }

  // The agent has `left` attempts, the first of them its `first`-th: it is called for every failure while it has
  // some left, a failure stands when it has none, and all its calls succeeded unless one let an exception escape.
  ghost predicate AgentUsed(w: World, o: Outcome, first: nat, left: nat) {
    && o.agentCalls == (if Caught(w, o.ran) < left then Caught(w, o.ran) else left)
    && (!o.raised ==> (Failed in o.tracker <==> Caught(w, o.ran) > left))
    && (!o.raised ==> forall k | first <= k < first + o.agentCalls :: w.agentSucceeds(k))
    && (o.raised <==> o.ran != [] && var last := o.ran[|o.ran| - 1];
          last < |w.bodies| && (w.bodies[last].ending == RaisesUncaught ||
                                (w.bodies[last].ending == RaisesCaught && o.agentCalls > 0 && !w.agentSucceeds(first + o.agentCalls - 1))))
  }

  lemma AgentUsedOnwards(w: World, o: Outcome, i: nat, calls: nat, first: nat, left: nat)
    requires AgentUsed(w, o, first + calls, left) && i < |w.bodies| && calls == if RaisedAt(w, i) then 1 else 0
    requires w.bodies[i].ending != RaisesUncaught && (calls == 1 ==> w.agentSucceeds(first))
    ensures AgentUsed(w, Prepend(i, calls, o), first, left + calls)
  {
    var p := Prepend(i, calls, o);
    assert p.ran[1..] == o.ran;
    if o.ran == [] {
      assert o.agentCalls == 0 && p.ran[|p.ran| - 1] == i;
    } else {
      assert p.ran[|p.ran| - 1] == o.ran[|o.ran| - 1];
      assert first + calls + o.agentCalls == first + p.agentCalls;
    }
  }

  lemma AgentGivesUp(w: World, t: seq<Status>, i: nat, calls: nat, first: nat, left: nat, raised: bool)
    requires i < |w.bodies| && i < |t|
    requires if !raised then RaisedAt(w, i) && calls == left == 0 && t[i] == Failed
             else if calls == 0 then w.bodies[i].ending == RaisesUncaught
             else calls == 1 && left > 0 && RaisedAt(w, i) && !w.agentSucceeds(first)
    ensures AgentUsed(w, Outcome(t, [i], calls, raised), first, left)
  {
    assert [i][1..] == [];
    assert Caught(w, [i]) == if RaisedAt(w, i) then 1 else 0;
  }

  function AttemptsLeft(w: World, attempts: nat): nat
    requires attempts <= 3
  {
    if w.agent then 3 - attempts else 0
  }

  /** Three attempts for a whole run, however many steps fail: the agent is called for each failure until they are
      used up; the first failure after that stands, and none does otherwise. */
  lemma {:induction false} AgentIsUsedUp(w: World, t: seq<Status>, i: nat, attempts: nat)
    requires |t| == |w.bodies| && LooksAhead(w) && Going(t, i) && attempts <= 3
    ensures AgentUsed(w, Walk(w, t, i, attempts), attempts, AttemptsLeft(w, attempts))
    decreases |t| - i
  {
    hide Walk, Mark, Fail, Succeed, LooksAhead, AgentUsed;
    if i == |t| {
      WalkEnds(w, t, attempts);
      NoOneFailed(w, t, attempts);
    } else if t[i] != Pending {
      WalkSkips(w, t, i, attempts);
      AgentIsUsedUp(w, t, i + 1, attempts);
    } else {
      BodyFails(w, t, i);
      WalkStep(w, t, i, attempts);
      var marked := Mark(t, w.bodies[i].notPlanned);
      var failed := Fail(marked, i);
      var left := AttemptsLeft(w, attempts);
      match w.bodies[i].ending
      case RaisesUncaught => AgentGivesUp(w, marked, i, 0, attempts, left, true);
      case Returns =>
        AgentIsUsedUp(w, Succeed(marked, i), i + 1, attempts);
        AgentUsedOnwards(w, Walk(w, Succeed(marked, i), i + 1, attempts), i, 0, attempts, left);
      case RaisesCaught =>
        if left == 0 {
          NothingPending(w, failed, i + 1, attempts);
          StopIsWellRun(failed, i, 0, attempts, false);
          AgentGivesUp(w, failed, i, 0, attempts, 0, false);
        } else if w.agentSucceeds(attempts) {
          AgentIsUsedUp(w, Succeed(failed, i), i + 1, attempts + 1);
          AgentUsedOnwards(w, Walk(w, Succeed(failed, i), i + 1, attempts + 1), i, 1, attempts, left - 1);
        } else {
          AgentGivesUp(w, failed, i, 1, attempts, left, true);
        }
    }
  }

  lemma NoOneFailed(w: World, t: seq<Status>, attempts: nat)
    requires |t| == |w.bodies| && Going(t, |t|) && attempts <= 3
    ensures AgentUsed(w, Outcome(t, [], 0, false), attempts, AttemptsLeft(w, attempts))
  {
  }

  // ---------- What is not planned ----------

  ghost predicate MarkedBy(w: World, ran: seq<nat>, k: nat) {
    exists j :: 0 <= j < |ran| && ran[j] < |w.bodies| && k in w.bodies[ran[j]].notPlanned
  }

  lemma MarkedFirstOrLater(w: World, i: nat, ran: seq<nat>, k: nat)
    requires i < |w.bodies|
    ensures MarkedBy(w, [i] + ran, k) <==> k in w.bodies[i].notPlanned || MarkedBy(w, ran, k)
  {
    var all := [i] + ran;
    if MarkedBy(w, ran, k) {
      var j :| 0 <= j < |ran| && ran[j] < |w.bodies| && k in w.bodies[ran[j]].notPlanned;
      assert all[j + 1] == ran[j];
    }
    if k in w.bodies[i].notPlanned { assert all[0] == i; }
  }

  // What a pass has to do with step k not being planned.
  ghost predicate PlannedOnly(w: World, t: seq<Status>, o: Outcome, k: nat) {
    && k < |t| == |o.tracker|
    && (o.tracker[k] == NotPlanned <==> t[k] == NotPlanned || MarkedBy(w, o.ran, k))
    && (o.tracker[k] == NotPlanned ==> k !in o.ran)
  }

  lemma PlannedOnwards(w: World, t: seq<Status>, t': seq<Status>, o: Outcome, i: nat, calls: nat, k: nat)
    requires PlannedOnly(w, t', o, k) && |t| == |t'| == |w.bodies| && i < |t| && t[i] == Pending && t'[i] == Success && o.tracker[i] == Success
    requires t'[k] == NotPlanned <==> t[k] == NotPlanned || k in w.bodies[i].notPlanned
    ensures PlannedOnly(w, t, Prepend(i, calls, o), k)
  {
    MarkedFirstOrLater(w, i, o.ran, k);
  }

  lemma PlannedStop(w: World, t: seq<Status>, t': seq<Status>, i: nat, calls: nat, raised: bool, k: nat)
    requires |t| == |t'| == |w.bodies| && i < |t| && k < |t| && t[i] == Pending && t'[i] != NotPlanned
    requires t'[k] == NotPlanned <==> t[k] == NotPlanned || k in w.bodies[i].notPlanned
    ensures PlannedOnly(w, t, Outcome(t', [i], calls, raised), k)
  {
    MarkedFirstOrLater(w, i, [], k);
    assert [i] + [] == [i];
  }

  lemma SettersKeepPlans(w: World, t: seq<Status>, i: nat, k: nat)
    requires |t| == |w.bodies| && LooksAhead(w) && i < |t| && k < |t| && t[i] == Pending
    ensures var marked := Mark(t, w.bodies[i].notPlanned); var failed := Fail(marked, i);
      && marked[i] != NotPlanned
      && (marked[k] == NotPlanned <==> t[k] == NotPlanned || k in w.bodies[i].notPlanned)
      && (failed[k] == NotPlanned <==> marked[k] == NotPlanned)
      && (Succeed(marked, i)[k] == NotPlanned <==> marked[k] == NotPlanned)
      && (Succeed(failed, i)[k] == NotPlanned <==> marked[k] == NotPlanned)
  {
  }

  /** A step ends up not planned exactly when it was so from the start or a body that ran said so, and then its
      own body does not run, even if a step fails and is repaired in between. */
  lemma {:induction false} OnlyPlannedStepsRun(w: World, t: seq<Status>, i: nat, attempts: nat, k: nat)
    requires |t| == |w.bodies| && LooksAhead(w) && Going(t, i) && k < |t|
    ensures PlannedOnly(w, t, Walk(w, t, i, attempts), k)
    decreases |t| - i, 0
  {
    hide Walk, Mark, Fail, Succeed, LooksAhead, PlannedOnly, Prepend;
    if i == |t| {
      PlannedEnd(w, t, attempts, k);
    } else if t[i] != Pending {
      WalkSkips(w, t, i, attempts);
      OnlyPlannedStepsRun(w, t, i + 1, attempts, k);
    } else {
      BodyFails(w, t, i);
      WalkStep(w, t, i, attempts);
      SettersKeepPlans(w, t, i, k);
      var marked := Mark(t, w.bodies[i].notPlanned);
      var failed := Fail(marked, i);
      match w.bodies[i].ending
      case RaisesUncaught => PlannedStop(w, t, marked, i, 0, true, k);
      case Returns => PlannedGoesOn(w, t, Succeed(marked, i), i, 0, attempts, k);
      case RaisesCaught =>
        if !w.agent || attempts >= MAX_AGENT_ATTEMPTS {
          NothingPending(w, failed, i + 1, attempts);
          PlannedStop(w, t, failed, i, 0, false, k);
          StopIsOnce(failed, i);
        } else if w.agentSucceeds(attempts) {
          PlannedGoesOn(w, t, Succeed(failed, i), i, 1, attempts + 1, k);
        } else {
          PlannedStop(w, t, failed, i, 1, true, k);
        }
    }
  }

  lemma StopIsOnce(t: seq<Status>, i: nat)
    ensures Prepend(i, 0, Outcome(t, [], 0, false)) == Outcome(t, [i], 0, false)
  {
  }

  lemma PlannedEnd(w: World, t: seq<Status>, attempts: nat, k: nat)
    requires |t| == |w.bodies| && k < |t|
    ensures PlannedOnly(w, t, Walk(w, t, |t|, attempts), k)
  {
  }

  lemma {:induction false} PlannedGoesOn(w: World, t: seq<Status>, t': seq<Status>, i: nat, calls: nat, attempts: nat, k: nat)
    requires |t| == |t'| == |w.bodies| && LooksAhead(w) && i < |t| && k < |t| && t[i] == Pending && t'[i] == Success && Going(t', i + 1)
    requires t'[k] == NotPlanned <==> t[k] == NotPlanned || k in w.bodies[i].notPlanned
    ensures PlannedOnly(w, t, Prepend(i, calls, Walk(w, t', i + 1, attempts)), k)
    decreases |t| - (i + 1), 1
  {
    hide Walk, LooksAhead, PlannedOnly;
    OnlyPlannedStepsRun(w, t', i + 1, attempts, k);
    SettledStays(w, t', i + 1, attempts, i);
    PlannedOnwards(w, t, t', Walk(w, t', i + 1, attempts), i, calls, k);
  }

  // ---------- The handler ----------

  class StepHandler {
    var tracker: seq<Status>
    ghost var ran: seq<nat>
    ghost var agentCalls: nat

    constructor (steps: nat)
      ensures tracker == AllPending(steps) && ran == [] && agentCalls == 0
    {
      tracker, ran, agentCalls := seq(steps, _ => Pending), [], 0;
    }

    // As the updater's constructor does with its first step when syncing is off.
    method SetStepNotPlanned(step: nat)
      requires step < |tracker|
      modifies this`tracker
      ensures tracker == old(tracker)[step := NotPlanned] && (Going(old(tracker), 0) ==> Going(tracker, 0))
    {
      tracker := tracker[step := NotPlanned];
    }

    method SetStepSuccess(step: nat)
      requires step < |tracker|
      modifies this`tracker
      ensures tracker == Succeed(old(tracker), step)
    {
      tracker := tracker[step := Success];
      for k := 0 to |tracker|
        invariant |tracker| == |old(tracker)|
        invariant forall j :: 0 <= j < |tracker| ==>
          tracker[j] == if j == step then Success else if j < k then Restore(old(tracker[j])) else old(tracker[j])
      {
        if tracker[k] == Cancelled { tracker := tracker[k := Pending]; }
      }
    }

    method SetStepFailure(step: nat)
      requires step < |tracker|
      modifies this`tracker
      ensures tracker == Fail(old(tracker), step)
    {
      tracker := tracker[step := Failed];
      for k := 0 to |tracker|
        invariant |tracker| == |old(tracker)|
        invariant forall j :: 0 <= j < |tracker| ==>
          tracker[j] == if j == step then Failed else if j < k then Cancel(old(tracker[j])) else old(tracker[j])
      {
        if tracker[k] == Pending { tracker := tracker[k := Cancelled]; }
      }
    }

    /** The recursive loop does what the single pass does, whatever the steps and the agent do. */
    method RunSteps(w: World, priorAttempts: nat, ghost from: nat) returns (raised: bool)
      requires LooksAhead(w) && |tracker| == |w.bodies| && Going(tracker, from) && priorAttempts <= MAX_AGENT_ATTEMPTS
      modifies this
      ensures Outcome(tracker, ran, agentCalls, raised) ==
              After(old(ran), old(agentCalls), Walk(w, old(tracker), 0, priorAttempts))
      decreases MAX_AGENT_ATTEMPTS - priorAttempts
    {
      ghost var whole := Walk(w, tracker, 0, priorAttempts);
      ghost var done := false;
      for i := 0 to |tracker|
        invariant |tracker| == |w.bodies|
        invariant done ==> forall k :: 0 <= k < |tracker| ==> tracker[k] != Pending
        invariant !done ==> Going(tracker, Max(i, from))
        invariant After(old(ran), old(agentCalls), whole) == After(ran, agentCalls, Walk(w, tracker, i, priorAttempts))
      {
        if tracker[i] == Pending {
          raised, done := RunPending(w, priorAttempts, i);
          if raised { return true; }
        }
      }
      raised := false;
    }

    method RunPending(w: World, priorAttempts: nat, i: nat) returns (raised: bool, ghost done: bool)
      requires LooksAhead(w) && |tracker| == |w.bodies| && Going(tracker, i) && priorAttempts <= MAX_AGENT_ATTEMPTS
      requires i < |tracker| && tracker[i] == Pending
      modifies this
      ensures !raised ==> |tracker| == |w.bodies|
      ensures var expected := After(old(ran), old(agentCalls), Walk(w, old(tracker), i, priorAttempts));
              if raised then Outcome(tracker, ran, agentCalls, true) == expected
              else After(ran, agentCalls, Walk(w, tracker, i + 1, priorAttempts)) == expected
      ensures !raised ==> if done then forall k :: 0 <= k < |tracker| ==> tracker[k] != Pending else Going(tracker, i + 1)
      decreases MAX_AGENT_ATTEMPTS - priorAttempts, 0
    {
      hide Walk, Mark, Fail, Succeed, LooksAhead, Prepend, After, Going, Halted, WellRun;
      BodyFails(w, tracker, i);
      WalkStep(w, tracker, i, priorAttempts);
      ghost var was, calls := ran, agentCalls;
      ran := ran + [i];
      tracker := Mark(tracker, w.bodies[i].notPlanned);
      match w.bodies[i].ending {
        case RaisesUncaught =>
          AfterStop(was, calls, tracker, i, 0);
          return true, true;
        case Returns =>
          SetStepSuccess(i);
          AfterPrepend(was, calls, i, 0, Walk(w, tracker, i + 1, priorAttempts));
          return false, false;
        case RaisesCaught =>
          SetStepFailure(i);
          if w.agent && priorAttempts < MAX_AGENT_ATTEMPTS {
            agentCalls := agentCalls + 1;
            if !w.agentSucceeds(priorAttempts) {
              AfterStop(was, calls, tracker, i, 1);
              return true, true;
            }
            SetStepSuccess(i);
            AfterPrepend(was, calls, i, 1, Walk(w, tracker, i + 1, priorAttempts + 1));
            ghost var fixed := tracker;
            SkipDone(w, fixed, i + 1, priorAttempts + 1);
            raised := RunSteps(w, priorAttempts + 1, i + 1);
            if !raised { RerunLeavesNothing(w, fixed, i + 1, priorAttempts, was + [i], calls + 1, Outcome(tracker, ran, agentCalls, false)); }
            return raised, true;
          }
          AfterPrepend(was, calls, i, 0, Walk(w, tracker, i + 1, priorAttempts));
          HaltedIsOver(tracker, i);
          return false, true;
      }
    }
  }

  lemma AfterPrepend(ran: seq<nat>, calls: nat, i: nat, c: nat, o: Outcome)
    ensures After(ran, calls, Prepend(i, c, o)) == After(ran + [i], calls + c, o)
  {
    assert ran + ([i] + o.ran) == (ran + [i]) + o.ran;
  }

  lemma AfterStop(ran: seq<nat>, calls: nat, t: seq<Status>, i: nat, c: nat)
    ensures After(ran, calls, Outcome(t, [i], c, true)) == Outcome(t, ran + [i], calls + c, true)
  {
  }

  lemma HaltedIsOver(t: seq<Status>, f: nat)
    requires Halted(t, f)
    ensures forall k :: 0 <= k < |t| ==> t[k] != Pending
  {
  }

  lemma SkipDone(w: World, t: seq<Status>, i: nat, attempts: nat)
    requires |t| == |w.bodies| && Going(t, i)
    ensures Walk(w, t, 0, attempts) == Walk(w, t, i, attempts)
  {
    SkipSettled(w, t, i, attempts);
  }

  // After a rerun that raised nothing, no step is pending and the rest of the loop does nothing.
  lemma RerunLeavesNothing(w: World, fixed: seq<Status>, i: nat, attempts: nat, ran: seq<nat>, calls: nat, o: Outcome)
    requires LooksAhead(w) && |fixed| == |w.bodies| && Going(fixed, i) && attempts < MAX_AGENT_ATTEMPTS
    requires o == After(ran, calls, Walk(w, fixed, i, attempts + 1)) && !o.raised
    ensures |o.tracker| == |w.bodies| && forall k :: 0 <= k < |o.tracker| ==> o.tracker[k] != Pending
    ensures After(o.ran, o.agentCalls, Walk(w, o.tracker, i, attempts)) == o
  {
    hide Walk;
    WalkIsWellRun(w, fixed, i, attempts + 1);
    NothingPending(w, o.tracker, i, attempts);
    assert o.ran + [] == o.ran;
  }

  function Max(a: nat, b: nat): nat { if a < b then b else a }

  // An outcome seen by a handler that had already run some bodies.
  function After(ran: seq<nat>, calls: nat, o: Outcome): Outcome {
    o.(ran := ran + o.ran, agentCalls := calls + o.agentCalls)
  }

  lemma {:induction false} SkipSettled(w: World, t: seq<Status>, i: nat, attempts: nat)
    requires |t| == |w.bodies| && i <= |t| && forall k :: 0 <= k < i ==> t[k] != Pending
    ensures Walk(w, t, 0, attempts) == Walk(w, t, i, attempts)
    decreases i
  {
    if i > 0 { SkipSettled(w, t, i - 1, attempts); }
  }
}
