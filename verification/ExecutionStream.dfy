/** The execution stream of the service: the thread that reads requests, the threads that run the
    benchmarks, the two locks, the condition variable and the future between them, as a step system. */
module ExecutionStream {
  import opened Wrappers

  datatype Owner = Service | Thread(id: nat)

  // Where the reading thread is.
  datatype Reader =
    | Idle        // about to read
    | Trying      // has a start request, about to try the busy lock
    | Unlocking   // got it, about to release it again
    | Locking     // about to take the accepted lock
    | Launching   // holds it, about to start a thread
    | Joining     // assigning the new future, which waits for the thread of the old one
    | Waiting     // on the condition variable, the accepted lock released
    | Woken       // notified, about to retake and release the accepted lock
    | Finishing   // waiting for the last thread before finishing the stream
    | Finished

  // Where the thread of one accepted start request is.
  datatype Handler =
    | Started        // about to take the accepted lock
    | HasAccepted    // about to take the busy lock
    | HasBoth        // about to notify
    | Notified       // about to release the accepted lock
    | Running        // holds the busy lock
    | ErrorReady     // malformed options or no process: about to write, busy lock held
    | ErrorWriting
    | ErrorWritten   // about to release the busy lock by returning
    | Released       // ran, busy lock released, about to write
    | Writing
    | Done

  // responses lists the threads whose response is on the stream, in the order written.
  datatype System = System(reader: Reader, handlers: seq<Handler>, future: Option<nat>,
                           accepted: Option<Owner>, busy: Option<Owner>, responses: seq<nat>)

  const Opened := System(Idle, [], None, None, None, [])

  datatype Request = StartRequest | UnsupportedRequest | EndOfRequests

  // Ran: the benchmark ran, well or not. Otherwise an error response is written straight away.
  datatype Event =
    | Read(request: Request) | TryBusy | Unlock | LockAccepted | Launch | Join | Wake | Finish
    | Advance(id: nat, ran: bool)

  predicate CanAdvance(s: System, id: nat) {
    && id < |s.handlers|
    && match s.handlers[id]
       case Started => s.accepted.None?
       case HasAccepted => s.busy.None?
       case Done => false
       case _ => true
  }

  predicate Enabled(s: System, e: Event) {
    match e
    case Read(_) => s.reader.Idle?
    case TryBusy => s.reader.Trying?
    case Unlock => s.reader.Unlocking?
    case LockAccepted => s.reader.Locking? && s.accepted.None?
    case Launch => s.reader.Launching?
    case Join => s.reader.Joining? && s.handlers != [] && (s.future.Some? ==> s.future.value < |s.handlers| && s.handlers[s.future.value].Done?)
    case Wake => s.reader.Woken? && s.accepted.None?
    case Finish => s.reader.Finishing? && (s.future.Some? ==> s.future.value < |s.handlers| && s.handlers[s.future.value].Done?)
    case Advance(id, _) => CanAdvance(s, id)
  }

  function AdvanceHandler(s: System, id: nat, ran: bool): System
    requires CanAdvance(s, id)
  {
    var me := Some(Thread(id));
    match s.handlers[id]
    case Started => s.(handlers := s.handlers[id := HasAccepted], accepted := me)
    case HasAccepted => s.(handlers := s.handlers[id := HasBoth], busy := me)
    case HasBoth => s.(handlers := s.handlers[id := Notified], reader := if s.reader.Waiting? then Woken else s.reader)
    case Notified => s.(handlers := s.handlers[id := Running], accepted := None)
    case Running => if ran then s.(handlers := s.handlers[id := Released], busy := None)
                    else s.(handlers := s.handlers[id := ErrorReady])
    case ErrorReady => s.(handlers := s.handlers[id := ErrorWriting])
    case ErrorWriting => s.(handlers := s.handlers[id := ErrorWritten], responses := s.responses + [id])
    case ErrorWritten => s.(handlers := s.handlers[id := Done], busy := None)
    case Released => s.(handlers := s.handlers[id := Writing])
    case Writing => s.(handlers := s.handlers[id := Done], responses := s.responses + [id])
  }

  function Next(s: System, e: Event): System
    requires Enabled(s, e)
  {
    match e
    case Read(StartRequest) => s.(reader := Trying)
    case Read(_) => s.(reader := Finishing)
    case TryBusy => if s.busy.None? then s.(reader := Unlocking, busy := Some(Service)) else s.(reader := Finishing)
    case Unlock => s.(reader := Locking, busy := None)
    case LockAccepted => s.(reader := Launching, accepted := Some(Service))
    case Launch => s.(reader := Joining, handlers := s.handlers + [Started])
    case Join => s.(reader := Waiting, future := Some(|s.handlers| - 1), accepted := None)
    case Wake => s.(reader := Idle)
    case Finish => s.(reader := Finished)
    case Advance(id, ran) => AdvanceHandler(s, id, ran)
  }

  predicate Possible(s: System, es: seq<Event>)
    decreases |es|
  {
    es == [] || (Enabled(s, es[0]) && Possible(Next(s, es[0]), es[1..]))
  }

  function After(s: System, es: seq<Event>): System
    requires Possible(s, es)
    decreases |es|
  {
    if es == [] then s else After(Next(s, es[0]), es[1..])
  }

  // ---------- What every step keeps ----------

  // Past the handshake.
  predicate Past(h: Handler) { h.Running? || h.ErrorReady? || h.ErrorWriting? || h.ErrorWritten? || Free(h) }
  // Past the benchmark, the busy lock released.
  predicate Free(h: Handler) { h.Released? || h.Writing? || h.Done? }
  predicate HoldsBusy(h: Handler) { h.HasBoth? || h.Notified? || (Past(h) && !Free(h)) }
  predicate HoldsAccepted(h: Handler) { h.HasAccepted? || h.HasBoth? || h.Notified? }
  predicate HasWritten(h: Handler) { h.ErrorWritten? || h.Done? }

  function Last(s: System): Handler { if s.handlers == [] then Done else s.handlers[|s.handlers| - 1] }
  function BeforeLast(s: System): Handler { if |s.handlers| < 2 then Done else s.handlers[|s.handlers| - 2] }

  // How far the last thread can be, given where the reader is.
  ghost predicate Handshake(s: System) {
    match s.reader
    case Idle => Past(Last(s))
    case Trying => Past(Last(s))
    case Unlocking => Free(Last(s))
    case Locking => Free(Last(s))
    case Launching => Free(Last(s))
    case Joining => Last(s).Started? && Free(BeforeLast(s))
    case Waiting => Last(s).Started? || Last(s).HasAccepted? || Last(s).HasBoth?
    case Woken => Last(s).Notified? || Past(Last(s))
    case Finishing => Past(Last(s))
    case Finished => Last(s).Done?
  }

  ghost predicate Locks(s: System) {
    var last := |s.handlers| - 1;
    && s.accepted == (if s.reader.Launching? || s.reader.Joining? then Some(Service)
                      else if HoldsAccepted(Last(s)) then Some(Thread(last)) else None)
    && s.busy == (if s.reader.Unlocking? then Some(Service)
                  else if HoldsBusy(Last(s)) then Some(Thread(last)) else None)
  }

  // Every thread but the newest is done; while the reader joins, the one before may still write.
  ghost predicate OneAtATime(s: System) {
    && (forall i :: 0 <= i < |s.handlers| - 2 ==> s.handlers[i].Done?)
    && (!s.reader.Joining? ==> BeforeLast(s).Done?)
    && (s.reader.Joining? || s.reader.Waiting? || s.reader.Woken? ==> s.handlers != [])
  }

  ghost predicate FutureIsNewest(s: System) {
    var n := if s.reader.Joining? then |s.handlers| - 1 else |s.handlers|;
    s.future == if n <= 0 then None else Some(n - 1)
  }

  // The responses are those of the threads that have written, in the order of their requests.
  ghost predicate InOrder(s: System) {
    && (forall i :: 0 <= i < |s.responses| ==> s.responses[i] == i)
    && |s.responses| <= |s.handlers|
    && (forall i :: 0 <= i < |s.handlers| ==> (HasWritten(s.handlers[i]) <==> i < |s.responses|))
  }

  ghost predicate Inv(s: System) {
    Handshake(s) && Locks(s) && OneAtATime(s) && FutureIsNewest(s) && InOrder(s)
  }

  lemma ReaderKeeps(s: System, e: Event)
    requires Inv(s) && Enabled(s, e) && !e.Advance?
    ensures Inv(Next(s, e))
  {
  }

  lemma OnlyTheNewestMoves(s: System, id: nat)
    requires Inv(s) && CanAdvance(s, id)
    ensures id == |s.handlers| - 1 || (s.reader.Joining? && id == |s.handlers| - 2)
  {
  }

  // What a step of a thread does to the two newest threads.
  lemma AfterAdvance(s: System, id: nat, ran: bool)
    requires Inv(s) && CanAdvance(s, id)
    ensures var s' := AdvanceHandler(s, id, ran);
      && |s'.handlers| == |s.handlers|
      && (forall i :: 0 <= i < |s.handlers| && i != id ==> s'.handlers[i] == s.handlers[i])
      && (if id == |s.handlers| - 1 then Last(s') == s'.handlers[id] && BeforeLast(s') == BeforeLast(s)
          else s.reader.Joining? && id == |s.handlers| - 2 && Last(s') == Last(s) && BeforeLast(s') == s'.handlers[id])
  {
    OnlyTheNewestMoves(s, id);
  }

  lemma AdvanceKeepsHandshake(s: System, id: nat, ran: bool)
    requires Inv(s) && CanAdvance(s, id)
    ensures var s' := AdvanceHandler(s, id, ran); Handshake(s') && OneAtATime(s') && FutureIsNewest(s')
  {
    AfterAdvance(s, id, ran);
    hide Last, BeforeLast, InOrder;
  }

  lemma AdvanceKeepsLocks(s: System, id: nat, ran: bool)
    requires Inv(s) && CanAdvance(s, id)
    ensures Locks(AdvanceHandler(s, id, ran))
  {
    AfterAdvance(s, id, ran);
    hide Last, BeforeLast, InOrder;
  }

  lemma AdvanceKeepsOrder(s: System, id: nat, ran: bool)
    requires Inv(s) && CanAdvance(s, id)
    ensures InOrder(AdvanceHandler(s, id, ran))
  {
    AfterAdvance(s, id, ran);
    assert id > 0 ==> s.handlers[id - 1].Done? && HasWritten(s.handlers[id - 1]);
    assert HasWritten(s.handlers[id]) <==> id < |s.responses|;
  }

  lemma HandlerKeeps(s: System, id: nat, ran: bool)
    requires Inv(s) && CanAdvance(s, id)
    ensures Inv(AdvanceHandler(s, id, ran))
  {
    AdvanceKeepsHandshake(s, id, ran);
    AdvanceKeepsLocks(s, id, ran);
    AdvanceKeepsOrder(s, id, ran);
    hide Handshake, Locks, OneAtATime, FutureIsNewest, InOrder, AdvanceHandler;
  }

  lemma NextKeeps(s: System, e: Event)
    requires Inv(s) && Enabled(s, e)
    ensures Inv(Next(s, e))
  {
    hide Inv;
    if e.Advance? { HandlerKeeps(s, e.id, e.ran); } else { ReaderKeeps(s, e); }
  }

  lemma {:induction false} RunKeeps(s: System, es: seq<Event>)
    requires Inv(s) && Possible(s, es)
    ensures Inv(After(s, es))
    decreases |es|
  {
    if es != [] {
      hide Inv, Next;
      NextKeeps(s, es[0]);
      RunKeeps(Next(s, es[0]), es[1..]);
    }
  }

  // ---------- What holds in every run ----------

  predicate IsWriting(h: Handler) { h.ErrorWriting? || h.Writing? }

  /** In every run: a thread notifies only while the reader is waiting for it, so no notification is
      lost; responses follow the order of the requests, one each; no two threads write at once; and
      nothing is written once the stream is finished, when every accepted request has its response. */
  lemma EveryRunIsSafe(es: seq<Event>)
    requires Possible(Opened, es)
    ensures var s := After(Opened, es);
      && (forall i :: 0 <= i < |s.handlers| && s.handlers[i].HasBoth? ==> s.reader.Waiting? && i == |s.handlers| - 1)
      && (forall i :: 0 <= i < |s.responses| ==> s.responses[i] == i)
      && (forall i :: 0 <= i < |s.handlers| ==> (i in s.responses <==> HasWritten(s.handlers[i])))
      && (forall i, j :: 0 <= i < |s.handlers| && 0 <= j < |s.handlers| && IsWriting(s.handlers[i]) && IsWriting(s.handlers[j])
            ==> i == j)
      && (s.reader.Finished? ==> |s.responses| == |s.handlers| && forall i :: 0 <= i < |s.handlers| ==> s.handlers[i].Done?)
  {
    OpenedInv();
    hide Opened, After, Possible, Next;
    RunKeeps(Opened, es);
    SafeFromInv(After(Opened, es));
  }

  lemma OpenedInv()
    ensures Inv(Opened)
  {
  }

  lemma SafeFromInv(s: System)
    requires Inv(s)
    ensures forall i :: 0 <= i < |s.handlers| && s.handlers[i].HasBoth? ==> s.reader.Waiting? && i == |s.handlers| - 1
    ensures forall i :: 0 <= i < |s.handlers| ==> (i in s.responses <==> HasWritten(s.handlers[i]))
    ensures forall i, j :: 0 <= i < |s.handlers| && 0 <= j < |s.handlers| && IsWriting(s.handlers[i]) && IsWriting(s.handlers[j])
              ==> i == j
    ensures s.reader.Finished? ==> |s.responses| == |s.handlers| && forall i :: 0 <= i < |s.handlers| ==> s.handlers[i].Done?
  {
    if s.reader.Finished? && s.handlers != [] {
      assert HasWritten(s.handlers[|s.handlers| - 1]);
    }
    forall i | 0 <= i < |s.handlers| ensures i in s.responses <==> HasWritten(s.handlers[i]) {
      if i < |s.responses| { assert s.responses[i] == i; }
    }
  }

  // ---------- Follow-up requests ----------

  /** A start request is declined exactly when the last accepted one still holds the busy lock. */
  lemma DeclinedIff(s: System)
    requires Inv(s) && s.reader.Trying?
    ensures Next(s, TryBusy).reader == Finishing <==>
            Last(s).Running? || Last(s).ErrorReady? || Last(s).ErrorWriting? || Last(s).ErrorWritten?
  {
  }

  /** A follow-up read when every earlier request has its response is declined exactly when the last
      response was written on an error path, by a thread that has yet to return. After a benchmark
      that ran it is never declined. */
  lemma FollowUpDeclinedIff(es: seq<Event>)
    requires Possible(Opened, es)
    ensures var s := After(Opened, es);
      s.reader.Trying? && |s.responses| == |s.handlers| ==> (Next(s, TryBusy).reader == Finishing <==> Last(s).ErrorWritten?)
  {
    OpenedInv();
    hide Opened, After, Possible, Next;
    RunKeeps(Opened, es);
    var s := After(Opened, es);
    if s.reader.Trying? && |s.responses| == |s.handlers| {
      DeclinedIff(s);
      assert s.handlers != [] ==> HasWritten(Last(s));
    }
  }

  ghost predicate Reachable(s: System) {
    exists es :: Possible(Opened, es) && After(Opened, es) == s
  }

  lemma {:induction false} AfterSnoc(s: System, es: seq<Event>, e: Event)
    requires Possible(s, es) && Enabled(After(s, es), e)
    ensures Possible(s, es + [e]) && After(s, es + [e]) == Next(After(s, es), e)
    decreases |es|
  {
    if es == [] {
      assert es + [e] == [e];
    } else {
      assert (es + [e])[1..] == es[1..] + [e];
      AfterSnoc(Next(s, es[0]), es[1..], e);
    }
  }

  lemma ReachNext(s: System, e: Event, s': System)
    requires Reachable(s) && Enabled(s, e) && s' == Next(s, e)
    ensures Reachable(s')
  {
    var es :| Possible(Opened, es) && After(Opened, es) == s;
    AfterSnoc(Opened, es, e);
  }

  lemma OpenedReachable()
    ensures Reachable(Opened)
  {
    assert Possible(Opened, []) && After(Opened, []) == Opened;
  }

  lemma FirstThreadStarts()
    ensures Reachable(System(Waiting, [Started], Some(0), None, None, []))
  {
    hide Reachable;
    OpenedReachable();
    ReachNext(Opened, Read(StartRequest), System(Trying, [], None, None, None, []));
    ReachNext(System(Trying, [], None, None, None, []), TryBusy, System(Unlocking, [], None, None, Some(Service), []));
    ReachNext(System(Unlocking, [], None, None, Some(Service), []), Unlock, System(Locking, [], None, None, None, []));
    ReachNext(System(Locking, [], None, None, None, []), LockAccepted, System(Launching, [], None, Some(Service), None, []));
    ReachNext(System(Launching, [], None, Some(Service), None, []), Launch, System(Joining, [Started], None, Some(Service), None, []));
    ReachNext(System(Joining, [Started], None, Some(Service), None, []), Join, System(Waiting, [Started], Some(0), None, None, []));
  }

  /** It can happen: a request with malformed options is answered, the client follows up, and is declined. */
  lemma FollowUpCanBeDeclined()
    ensures var s := System(Trying, [ErrorWritten], Some(0), None, Some(Thread(0)), [0]);
            Reachable(s) && |s.responses| == |s.handlers| && Next(s, TryBusy).reader == Finishing
  {
    hide Reachable;
    FirstThreadStarts();
    var f, me := Some(0), Some(Thread(0));
    ReachNext(System(Waiting, [Started], f, None, None, []), Advance(0, false), System(Waiting, [HasAccepted], f, me, None, []));
    ReachNext(System(Waiting, [HasAccepted], f, me, None, []), Advance(0, false), System(Waiting, [HasBoth], f, me, me, []));
    ReachNext(System(Waiting, [HasBoth], f, me, me, []), Advance(0, false), System(Woken, [Notified], f, me, me, []));
    ReachNext(System(Woken, [Notified], f, me, me, []), Advance(0, false), System(Woken, [Running], f, None, me, []));
    ReachNext(System(Woken, [Running], f, None, me, []), Wake, System(Idle, [Running], f, None, me, []));
    ReachNext(System(Idle, [Running], f, None, me, []), Advance(0, false), System(Idle, [ErrorReady], f, None, me, []));
    ReachNext(System(Idle, [ErrorReady], f, None, me, []), Advance(0, false), System(Idle, [ErrorWriting], f, None, me, []));
    ReachNext(System(Idle, [ErrorWriting], f, None, me, []), Advance(0, false), System(Idle, [ErrorWritten], f, None, me, [0]));
    ReachNext(System(Idle, [ErrorWritten], f, None, me, [0]), Read(StartRequest), System(Trying, [ErrorWritten], f, None, me, [0]));
  }

  // ---------- Every request is accounted for ----------

  // Between reading a start request and launching its thread.
  predicate Deciding(r: Reader) { r.Trying? || r.Unlocking? || r.Locking? || r.Launching? }
  predicate Ending(r: Reader) { r.Finishing? || r.Finished? }

  function Reads(es: seq<Event>): nat {
    if es == [] then 0 else (if es[0].Read? then 1 else 0) + Reads(es[1..])
  }

  predicate AsksToEnd(e: Event) { e.Read? && e.request != StartRequest }

  // Requests read so far that have no thread of their own: at most the one in hand, or the one that ended the stream.
  function Unserved(s: System): nat { if Deciding(s.reader) || Ending(s.reader) then 1 else 0 }

  lemma {:induction false} ReadsAreServed(s: System, es: seq<Event>)
    requires Possible(s, es)
    ensures var t := After(s, es); Reads(es) + |s.handlers| + Unserved(s) == |t.handlers| + Unserved(t)
    decreases |es|
  {
    if es != [] {
      ReadsAreServed(Next(s, es[0]), es[1..]);
    }
  }

  lemma {:induction false} EndingStays(s: System, es: seq<Event>)
    requires Ending(s.reader) && Possible(s, es)
    ensures Ending(After(s, es).reader)
    decreases |es|
  {
    if es != [] {
      EndingStays(Next(s, es[0]), es[1..]);
    }
  }

  lemma {:induction false} AskingEndsTheStream(s: System, es: seq<Event>, i: nat)
    requires Possible(s, es) && i < |es| && AsksToEnd(es[i])
    ensures Ending(After(s, es).reader)
    decreases |es|
  {
    if i == 0 {
      EndingStays(Next(s, es[0]), es[1..]);
    } else {
      AskingEndsTheStream(Next(s, es[0]), es[1..], i - 1);
    }
  }

  /** In every run each request read has its own thread, but for the one being decided on and the one that
      ended the stream; and the end of the requests, or one that is not supported, always ends it. */
  lemma EveryReadIsAccountedFor(es: seq<Event>)
    requires Possible(Opened, es)
    ensures var s := After(Opened, es);
      && Reads(es) == |s.handlers| + (if Deciding(s.reader) || Ending(s.reader) then 1 else 0)
      && forall i | 0 <= i < |es| && AsksToEnd(es[i]) :: Ending(s.reader)
  {
    ReadsAreServed(Opened, es);
    forall i | 0 <= i < |es| && AsksToEnd(es[i]) ensures Ending(After(Opened, es).reader) {
      AskingEndsTheStream(Opened, es, i);
    }
  }

  // ---------- Progress ----------

  function HandlerRank(h: Handler): nat {
    match h
    case Started => 10 case HasAccepted => 9 case HasBoth => 8 case Notified => 7 case Running => 6
    case ErrorReady => 5 case ErrorWriting => 4 case ErrorWritten => 3 case Released => 2 case Writing => 1 case Done => 0
  }

  function ReaderRank(r: Reader): nat {
    match r
    case Trying => 30 case Unlocking => 29 case Locking => 28 case Launching => 27 case Joining => 14
    case Waiting => 13 case Woken => 2 case Finishing => 1 case Idle => 0 case Finished => 0
  }

  // Steps left before the service is idle again, at most.
  function Rank(s: System): nat { ReaderRank(s.reader) + HandlerRank(Last(s)) + HandlerRank(BeforeLast(s)) }

  lemma ReaderStepsDown(s: System, e: Event)
    requires Inv(s) && Enabled(s, e) && !e.Read? && !e.Advance?
    ensures Rank(Next(s, e)) < Rank(s)
  {
  }

  lemma HandlerStepsDown(s: System, id: nat, ran: bool)
    requires Inv(s) && CanAdvance(s, id)
    ensures Rank(AdvanceHandler(s, id, ran)) < Rank(s)
  {
    AfterAdvance(s, id, ran);
    hide Last, BeforeLast, Inv;
  }

  /** Nobody is ever stuck: unless the service waits for the client or has finished, with every thread
      done and every response written, some thread can move. */
  lemma NeverStuck(s: System)
    requires Inv(s)
    ensures (exists e: Event :: !e.Read? && Enabled(s, e)) ||
            ((s.reader.Idle? || s.reader.Finished?) && |s.responses| == |s.handlers| &&
             forall i :: 0 <= i < |s.handlers| ==> s.handlers[i].Done?)
  {
    if |s.handlers| >= 1 && CanAdvance(s, |s.handlers| - 1) {
      assert Enabled(s, Advance(|s.handlers| - 1, true));
    } else if |s.handlers| >= 2 && CanAdvance(s, |s.handlers| - 2) {
      assert Enabled(s, Advance(|s.handlers| - 2, true));
    } else {
      match s.reader
      case Idle => SafeFromInv(s); assert s.handlers != [] ==> HasWritten(Last(s));
      case Trying => assert Enabled(s, TryBusy);
      case Unlocking => assert Enabled(s, Unlock);
      case Locking => assert Enabled(s, LockAccepted);
      case Launching => assert Enabled(s, Launch);
      case Joining => assert Enabled(s, Join);
      case Waiting => assert false;
      case Woken => assert Enabled(s, Wake);
      case Finishing => assert Enabled(s, Finish);
      case Finished => SafeFromInv(s);
    }
  }

  predicate NoReads(es: seq<Event>) { forall i :: 0 <= i < |es| ==> !es[i].Read? }

  /** Between two requests there are at most thirty-six steps, whatever the interleaving; and when no step
      is left every accepted request has been answered (NeverStuck). */
  lemma {:induction false} StepsAreBounded(s: System, es: seq<Event>)
    requires Inv(s) && Possible(s, es) && NoReads(es)
    ensures |es| + Rank(After(s, es)) <= Rank(s) <= 36
    decreases |es|
  {
    if es == [] {
    } else {
      var e := es[0];
      if e.Advance? { HandlerStepsDown(s, e.id, e.ran); } else { ReaderStepsDown(s, e); }
      NextKeeps(s, e);
      hide Inv, Next, Rank;
      StepsAreBounded(Next(s, e), es[1..]);
    }
    assert Rank(s) <= 36 by { RankIsBounded(s); }
  }

  lemma RankIsBounded(s: System)
    requires Inv(s)
    ensures Rank(s) <= 36
  {
  }
}
