/** The life of every request: started by a caller, handed to the connection pool, and ended by a
    response, a reset or a pool failure, with the counters the client and the sequencer keep. */
module RequestAccounting {
  import opened Wrappers

  datatype Protocol = Http1 | Http2 | Http3

  datatype Config = Config(backpressure: bool, protocol: Protocol, connectionLimit: nat, maxPending: nat, maxActive: nat)

  function MaxInFlight(c: Config): nat {
    c.maxPending + (if c.protocol == Http2 || c.protocol == Http3 then c.maxActive else c.connectionLimit)
  }

  datatype FailureReason = Overflow | LocalConnectionFailure | RemoteConnectionFailure | Timeout

  // Who asked for the request: the worker's warmup, or the sequencer.
  datatype Caller = Warmup | Sequencer

  datatype Ending = Response(status: int) | Reset | PoolFailed(reason: FailureReason)

  datatype Stage = Pending | Open(status: Option<int>) | Ended(ending: Ending)

  // calls: the (complete, success) arguments of each call of the caller's callback.
  datatype Stream = Stream(caller: Caller, stage: Stage, calls: seq<(bool, bool)>)

  datatype Tally = Tally(resets: nat, http1xx: nat, http2xx: nat, http3xx: nat, http4xx: nat, http5xx: nat, httpXxx: nat,
                         poolOverflow: nat, poolConnectionFailure: nat)

  datatype Client = Client(config: Config, initiated: nat, completed: nat, tally: Tally,
                           targetsInitiated: nat, targetsCompleted: nat, streams: seq<Stream>)

  function Initial(config: Config): Client {
    Client(config, 0, 0, Tally(0, 0, 0, 0, 0, 0, 0, 0, 0), 0, 0, [])
  }

  // ---------- What one event does ----------

  function CountResponse(t: Tally, status: int): Tally {
    if status > 99 && status <= 199 then t.(http1xx := t.http1xx + 1)
    else if status > 199 && status <= 299 then t.(http2xx := t.http2xx + 1)
    else if status > 299 && status <= 399 then t.(http3xx := t.http3xx + 1)
    else if status > 399 && status <= 499 then t.(http4xx := t.http4xx + 1)
    else if status > 499 && status <= 599 then t.(http5xx := t.http5xx + 1)
    else t.(httpXxx := t.httpXxx + 1)
  }

  function CountPoolFailure(t: Tally, reason: FailureReason): Tally {
    match reason
    case Overflow => t.(poolOverflow := t.poolOverflow + 1)
    case LocalConnectionFailure => t.(poolConnectionFailure := t.poolConnectionFailure + 1)
    case RemoteConnectionFailure => t.(poolConnectionFailure := t.poolConnectionFailure + 1)
    case Timeout => t
  }

  function CountEnding(t: Tally, e: Ending): Tally {
    match e
    case Response(status) => CountResponse(t, status)
    case Reset => t.(resets := t.resets + 1)
    case PoolFailed(reason) => CountPoolFailure(t, reason)
  }

  // What the caller is told: complete and success.
  function CallFor(e: Ending): (bool, bool) { (e.Response?, e.Response?) }

  // The stream ends, its ending is counted, and the caller is called back.
  function End(s: Client, id: nat, e: Ending): Client
    requires id < |s.streams|
  {
    var stream := s.streams[id];
    s.(completed := if e.PoolFailed? then s.completed else s.completed + 1,
       tally := CountEnding(s.tally, e),
       targetsCompleted := if stream.caller == Sequencer then s.targetsCompleted + 1 else s.targetsCompleted,
       streams := s.streams[id := Stream(stream.caller, Ended(e), stream.calls + [CallFor(e)])])
  }

  function SetStage(s: Client, id: nat, stage: Stage): Client
    requires id < |s.streams|
  {
    s.(streams := s.streams[id := s.streams[id].(stage := stage)])
  }

  predicate Saturated(s: Client) {
    s.config.backpressure && s.initiated - s.completed >= MaxInFlight(s.config)
  }

  // Starting a request; the pool may fail it before newStream returns. The sequencer counts the
  // target as initiated only afterwards.
  function TryStart(s: Client, caller: Caller, pool: bool, request: bool, failure: Option<FailureReason>): (Client, bool) {
    if !pool || Saturated(s) || !request then (s, false)
    else
      var started := s.(initiated := s.initiated + 1, streams := s.streams + [Stream(caller, Pending, [])]);
      var handed := if failure.Some? then End(started, |s.streams|, PoolFailed(failure.value)) else started;
      (handed.(targetsInitiated := if caller == Sequencer then handed.targetsInitiated + 1 else handed.targetsInitiated), true)
  }

  datatype Event =
    | Start(caller: Caller, pool: bool, request: bool, failure: Option<FailureReason>)
    | PoolReady(id: nat)
    | PoolFailure(id: nat, reason: FailureReason)
    | Headers(id: nat, status: int, endStream: bool)
    | Data(id: nat, endStream: bool)
    | Trailers(id: nat)
    | ResetStream(id: nat)

  // What the pool and the codec promise: an answer to a pending stream, then headers before data
  // and trailers, and nothing after the end.
  predicate Enabled(s: Client, e: Event) {
    match e
    case Start(_, _, _, _) => true
    case PoolReady(id) => id < |s.streams| && s.streams[id].stage.Pending?
    case PoolFailure(id, _) => id < |s.streams| && s.streams[id].stage.Pending?
    case Headers(id, _, _) => id < |s.streams| && s.streams[id].stage == Open(None)
    case Data(id, _) => id < |s.streams| && s.streams[id].stage.Open? && s.streams[id].stage.status.Some?
    case Trailers(id) => id < |s.streams| && s.streams[id].stage.Open? && s.streams[id].stage.status.Some?
    case ResetStream(id) => id < |s.streams| && s.streams[id].stage.Open?
  }

  function Next(s: Client, e: Event): Client
    requires Enabled(s, e)
  {
    match e
    case Start(caller, pool, request, failure) => TryStart(s, caller, pool, request, failure).0
    case PoolReady(id) => SetStage(s, id, Open(None))
    case PoolFailure(id, reason) => End(s, id, PoolFailed(reason))
    case Headers(id, status, endStream) => if endStream then End(s, id, Response(status)) else SetStage(s, id, Open(Some(status)))
    case Data(id, endStream) => if endStream then End(s, id, Response(s.streams[id].stage.status.value)) else s
    case Trailers(id) => End(s, id, Response(s.streams[id].stage.status.value))
    case ResetStream(id) => End(s, id, Reset)
  }

  predicate Possible(s: Client, es: seq<Event>)
    decreases |es|
  {
    es == [] || (Enabled(s, es[0]) && Possible(Next(s, es[0]), es[1..]))
  }

  function After(s: Client, es: seq<Event>): Client
    requires Possible(s, es)
    decreases |es|
  {
    if es == [] then s else After(Next(s, es[0]), es[1..])
  }

  // ---------- Counting streams ----------

  datatype StatusClass = C1xx | C2xx | C3xx | C4xx | C5xx | Other

  function ClassOf(status: int): StatusClass {
    match status / 100 case 1 => C1xx case 2 => C2xx case 3 => C3xx case 4 => C4xx case 5 => C5xx case _ => Other
  }

  datatype Query = Outstanding | Answered(c: StatusClass) | WasReset | Failed(reason: FailureReason)
                 | AskedBy(caller: Caller) | Returned(caller: Caller)

  predicate Matches(q: Query, s: Stream) {
    match q
    case Outstanding => !s.stage.Ended?
    case Answered(c) => s.stage.Ended? && s.stage.ending.Response? && ClassOf(s.stage.ending.status) == c
    case WasReset => s.stage == Ended(Reset)
    case Failed(reason) => s.stage == Ended(PoolFailed(reason))
    case AskedBy(caller) => s.caller == caller
    case Returned(caller) => s.caller == caller && s.stage.Ended?
  }

  function Bit(b: bool): nat { if b then 1 else 0 }

  function Count(streams: seq<Stream>, q: Query): (n: nat)
    ensures n <= |streams|
  {
    if streams == [] then 0 else Count(streams[..|streams| - 1], q) + Bit(Matches(q, streams[|streams| - 1]))
  }

  function PoolFailures(streams: seq<Stream>): nat {
    Count(streams, Failed(Overflow)) + Count(streams, Failed(LocalConnectionFailure)) +
    Count(streams, Failed(RemoteConnectionFailure)) + Count(streams, Failed(Timeout))
  }

  function Responses(streams: seq<Stream>): nat {
    Count(streams, Answered(C1xx)) + Count(streams, Answered(C2xx)) + Count(streams, Answered(C3xx)) +
    Count(streams, Answered(C4xx)) + Count(streams, Answered(C5xx)) + Count(streams, Answered(Other))
  }

  lemma CountSnoc(streams: seq<Stream>, x: Stream, q: Query)
    ensures Count(streams + [x], q) == Count(streams, q) + Bit(Matches(q, x))
  {
    assert (streams + [x])[..|streams|] == streams;
  }

  lemma {:induction false} CountUpdate(streams: seq<Stream>, id: nat, x: Stream, q: Query)
    requires id < |streams|
    ensures Count(streams[id := x], q) == Count(streams, q) - Bit(Matches(q, streams[id])) + Bit(Matches(q, x))
  {
    var init, last := streams[..|streams| - 1], streams[|streams| - 1];
    if id == |init| {
      assert streams[id := x] == init + [x];
      CountSnoc(init, x, q);
    } else {
      assert streams[id := x] == init[id := x] + [last];
      CountUpdate(init, id, x, q);
      CountSnoc(init[id := x], last, q);
    }
  }

  lemma OneEnding(x: Stream)
    ensures 1 == Bit(Matches(Outstanding, x)) + Bit(Matches(WasReset, x)) +
                 Bit(Matches(Answered(C1xx), x)) + Bit(Matches(Answered(C2xx), x)) + Bit(Matches(Answered(C3xx), x)) +
                 Bit(Matches(Answered(C4xx), x)) + Bit(Matches(Answered(C5xx), x)) + Bit(Matches(Answered(Other), x)) +
                 Bit(Matches(Failed(Overflow), x)) + Bit(Matches(Failed(LocalConnectionFailure), x)) +
                 Bit(Matches(Failed(RemoteConnectionFailure), x)) + Bit(Matches(Failed(Timeout), x))
  {
    match x.stage
    case Ended(PoolFailed(r)) => assert r == Overflow || r == LocalConnectionFailure || r == RemoteConnectionFailure || r == Timeout;
    case Ended(Response(status)) => var c := ClassOf(status);
    case _ =>
  }

  /** Every stream is outstanding, answered in exactly one status class, reset, or failed for one reason. */
  lemma {:induction false} EndingsPartition(streams: seq<Stream>)
    ensures |streams| == Count(streams, Outstanding) + Responses(streams) + Count(streams, WasReset) + PoolFailures(streams)
  {
    if streams != [] {
      var init, x := streams[..|streams| - 1], streams[|streams| - 1];
      EndingsPartition(init);
      assert forall q :: Count(streams, q) == Count(init, q) + Bit(Matches(q, x));
      hide Count, Matches;
      OneEnding(x);
    }
  }

  lemma {:induction false} CallersPartition(streams: seq<Stream>)
    ensures |streams| == Count(streams, AskedBy(Sequencer)) + Count(streams, AskedBy(Warmup))
    ensures |streams| - Count(streams, Outstanding) == Count(streams, Returned(Sequencer)) + Count(streams, Returned(Warmup))
    ensures forall c :: Count(streams, Returned(c)) <= Count(streams, AskedBy(c))
  {
    if streams != [] {
      CallersPartition(streams[..|streams| - 1]);
    }
  }

  // ---------- The invariant ----------

  // The caller of a live stream has not been called; the caller of an ended one was told once, how it ended.
  ghost predicate ToldOnce(s: Stream) {
    s.calls == match s.stage
      case Ended(Response(_)) => [(true, true)]
      case Ended(_) => [(false, false)]
      case _ => []
  }

  // Every counter is the number of streams it is meant to count.
  ghost predicate TallyIsExact(t: Tally, streams: seq<Stream>) {
    && t.resets == Count(streams, WasReset)
    && t.http1xx == Count(streams, Answered(C1xx)) && t.http2xx == Count(streams, Answered(C2xx))
    && t.http3xx == Count(streams, Answered(C3xx)) && t.http4xx == Count(streams, Answered(C4xx))
    && t.http5xx == Count(streams, Answered(C5xx)) && t.httpXxx == Count(streams, Answered(Other))
    && t.poolOverflow == Count(streams, Failed(Overflow))
    && t.poolConnectionFailure == Count(streams, Failed(LocalConnectionFailure)) + Count(streams, Failed(RemoteConnectionFailure))
  }

  ghost predicate Accounted(s: Client) {
    && s.initiated == |s.streams|
    && s.completed == Responses(s.streams) + Count(s.streams, WasReset)
    && TallyIsExact(s.tally, s.streams)
    && s.targetsInitiated == Count(s.streams, AskedBy(Sequencer))
    && s.targetsCompleted == Count(s.streams, Returned(Sequencer))
    && forall i :: 0 <= i < |s.streams| ==> ToldOnce(s.streams[i])
  }

  lemma SetStageKeeps(s: Client, id: nat, stage: Stage)
    requires Accounted(s) && id < |s.streams| && !s.streams[id].stage.Ended? && !stage.Ended?
    ensures Accounted(SetStage(s, id, stage))
  {
    var x := s.streams[id].(stage := stage);
    forall q ensures Count(s.streams[id := x], q) == Count(s.streams, q) {
      CountUpdate(s.streams, id, x, q);
      hide Count;
    }
  }

  lemma EndTally(t: Tally, streams: seq<Stream>, id: nat, e: Ending, x: Stream)
    requires TallyIsExact(t, streams) && id < |streams| && !streams[id].stage.Ended? && x.stage == Ended(e)
    ensures TallyIsExact(CountEnding(t, e), streams[id := x])
    ensures Responses(streams[id := x]) + Count(streams[id := x], WasReset) ==
            Responses(streams) + Count(streams, WasReset) + Bit(!e.PoolFailed?)
  {
    hide Count;
    forall q ensures Count(streams[id := x], q) == Count(streams, q) - Bit(Matches(q, streams[id])) + Bit(Matches(q, x)) {
      CountUpdate(streams, id, x, q);
    }
  }

  lemma EndKeeps(s: Client, id: nat, e: Ending)
    requires Accounted(s) && id < |s.streams| && !s.streams[id].stage.Ended?
    ensures Accounted(End(s, id, e))
  {
    var x := End(s, id, e).streams[id];
    EndTally(s.tally, s.streams, id, e, x);
    CountUpdate(s.streams, id, x, AskedBy(Sequencer));
    CountUpdate(s.streams, id, x, Returned(Sequencer));
    hide Count, TallyIsExact, Responses, CountEnding;
  }

  // Every count of the streams with one more of them.
  lemma CountsSnoc(streams: seq<Stream>, x: Stream)
    ensures forall q :: Count(streams + [x], q) == Count(streams, q) + Bit(Matches(q, x))
  {
    hide Count, Matches;
    forall q ensures Count(streams + [x], q) == Count(streams, q) + Bit(Matches(q, x)) {
      CountSnoc(streams, x, q);
    }
  }

  // A pending stream is outstanding and in no other count but its caller's.
  lemma BeginTally(t: Tally, streams: seq<Stream>, caller: Caller)
    requires TallyIsExact(t, streams)
    ensures var more := streams + [Stream(caller, Pending, [])];
            && TallyIsExact(t, more) && Responses(more) == Responses(streams)
            && Count(more, WasReset) == Count(streams, WasReset)
            && Count(more, AskedBy(Sequencer)) == Count(streams, AskedBy(Sequencer)) + Bit(caller == Sequencer)
            && Count(more, Returned(Sequencer)) == Count(streams, Returned(Sequencer))
  {
    hide Count;
    CountsSnoc(streams, Stream(caller, Pending, []));
  }

  lemma BeginKeeps(s: Client, caller: Caller)
    requires Accounted(s)
    ensures var begun := s.(initiated := s.initiated + 1, streams := s.streams + [Stream(caller, Pending, [])],
                            targetsInitiated := s.targetsInitiated + Bit(caller == Sequencer));
            Accounted(begun)
  {
    hide Count, TallyIsExact, Responses;
    BeginTally(s.tally, s.streams, caller);
  }

  lemma TryStartKeeps(s: Client, caller: Caller, pool: bool, request: bool, failure: Option<FailureReason>)
    requires Accounted(s)
    ensures Accounted(TryStart(s, caller, pool, request, failure).0)
  {
    hide Accounted;
    if pool && !Saturated(s) && request {
      BeginKeeps(s, caller);
      if failure.Some? {
        var begun := s.(initiated := s.initiated + 1, streams := s.streams + [Stream(caller, Pending, [])],
                        targetsInitiated := s.targetsInitiated + Bit(caller == Sequencer));
        assert Accounted(begun) && begun.streams[|s.streams|].stage.Pending?;
        EndKeeps(begun, |s.streams|, PoolFailed(failure.value));
      }
    }
  }

  lemma NextKeeps(s: Client, e: Event)
    requires Accounted(s) && Enabled(s, e)
    ensures Accounted(Next(s, e)) && Next(s, e).config == s.config
  {
    hide Accounted, Count;
    match e
    case Start(caller, pool, request, failure) => TryStartKeeps(s, caller, pool, request, failure);
    case PoolReady(id) => SetStageKeeps(s, id, Open(None));
    case PoolFailure(id, reason) => EndKeeps(s, id, PoolFailed(reason));
    case Headers(id, status, endStream) =>
      if endStream { EndKeeps(s, id, Response(status)); } else { SetStageKeeps(s, id, Open(Some(status))); }
    case Data(id, endStream) => if endStream { EndKeeps(s, id, Response(s.streams[id].stage.status.value)); }
    case Trailers(id) => EndKeeps(s, id, Response(s.streams[id].stage.status.value));
    case ResetStream(id) => EndKeeps(s, id, Reset);
  }

  lemma {:induction false} RunKeeps(s: Client, es: seq<Event>)
    requires Accounted(s) && Possible(s, es)
    ensures Accounted(After(s, es)) && After(s, es).config == s.config
    decreases |es|
  {
    hide Accounted, Next;
    if es != [] {
      NextKeeps(s, es[0]);
      RunKeeps(Next(s, es[0]), es[1..]);
    }
  }

  // ---------- What holds in every run ----------

  // Requests are conserved and completions split by ending; the sequencer's completions are the
  // client's completions plus the pool failures, less those of the warmup.
  ghost predicate Balanced(s: Client) {
    && s.initiated == s.completed + Count(s.streams, Outstanding) + PoolFailures(s.streams)
    && s.completed == s.tally.resets + s.tally.http1xx + s.tally.http2xx + s.tally.http3xx + s.tally.http4xx +
                      s.tally.http5xx + s.tally.httpXxx
    && PoolFailures(s.streams) == s.tally.poolOverflow + s.tally.poolConnectionFailure + Count(s.streams, Failed(Timeout))
    && s.targetsCompleted + Count(s.streams, Returned(Warmup)) == s.completed + PoolFailures(s.streams)
    && s.targetsCompleted <= s.targetsInitiated <= s.initiated
  }

  lemma AccountedIsBalanced(s: Client)
    requires Accounted(s)
    ensures Balanced(s)
  {
    EndingsPartition(s.streams);
    CallersPartition(s.streams);
    hide Count, ToldOnce;
  }

  lemma NothingIsAccounted(s: Client)
    requires s.streams == [] && s.initiated == s.completed == s.targetsInitiated == s.targetsCompleted == 0
    requires s.tally == Tally(0, 0, 0, 0, 0, 0, 0, 0, 0)
    ensures Accounted(s)
  {
    hide Count;
  }

  lemma InitialIsAccounted(config: Config)
    ensures Accounted(Initial(config)) && WithinLimit(Initial(config)) && Initial(config).config == config
    ensures Count(Initial(config).streams, Outstanding) == PoolFailures(Initial(config).streams) == 0
  {
    hide Accounted, Count;
    NothingIsAccounted(Initial(config));
  }

  /** In every run: each request's caller is called at most once, exactly once when its stream has
      ended, and the books balance. */
  lemma EveryRunBalances(config: Config, es: seq<Event>)
    requires Possible(Initial(config), es)
    ensures var s := After(Initial(config), es);
            Balanced(s) && forall i :: 0 <= i < |s.streams| ==> ToldOnce(s.streams[i])
  {
    hide Initial, After, Possible, Count, TallyIsExact, Balanced, ToldOnce;
    InitialIsAccounted(config);
    RunKeeps(Initial(config), es);
    AccountedIsBalanced(After(Initial(config), es));
  }

  /** A request is started exactly when there is a pool and a request to send and, under back-pressure, the
      outstanding requests and all pool failures so far leave room in the pending requests allowed plus the
      connections of HTTP/1 or the active requests of HTTP/2 and HTTP/3. */
  lemma StartsIff(s: Client, caller: Caller, pool: bool, request: bool, failure: Option<FailureReason>)
    requires Accounted(s)
    ensures TryStart(s, caller, pool, request, failure).1 <==>
            pool && request &&
            (s.config.backpressure ==>
               Count(s.streams, Outstanding) + PoolFailures(s.streams) <
               s.config.maxPending + (if s.config.protocol == Http1 then s.config.connectionLimit else s.config.maxActive))
  {
    EndingsPartition(s.streams);
  }

  ghost predicate WithinLimit(s: Client) {
    s.config.backpressure ==> s.initiated <= s.completed + MaxInFlight(s.config)
  }

  lemma {:induction false} RunStaysWithinLimit(s: Client, es: seq<Event>)
    requires WithinLimit(s) && Possible(s, es)
    ensures WithinLimit(After(s, es))
    decreases |es|
  {
    if es != [] {
      RunStaysWithinLimit(Next(s, es[0]), es[1..]);
    }
  }

  /** Closed loop: never more than the limit in flight, pool failures included. */
  lemma ClosedLoopIsBounded(config: Config, es: seq<Event>)
    requires Possible(Initial(config), es) && config.backpressure
    ensures var s := After(Initial(config), es);
            && Count(s.streams, Outstanding) + PoolFailures(s.streams) == s.initiated - s.completed
            && s.initiated - s.completed <= config.maxPending + (if config.protocol == Http1 then config.connectionLimit else config.maxActive)
  {
    hide Initial, After, Possible, Count, Accounted;
    InitialIsAccounted(config);
    RunKeeps(Initial(config), es);
    AccountedIsBalanced(After(Initial(config), es));
    RunStaysWithinLimit(Initial(config), es);
  }

  // ---------- Which events end a stream ----------

  // The last the codec or the pool says about a stream.
  predicate IsFinal(e: Event) {
    e.PoolFailure? || e.Trailers? || e.ResetStream? || ((e.Headers? || e.Data?) && e.endStream)
  }

  // The status its headers announced, if they have come.
  function Announced(s: Client, id: nat): Option<int> {
    if id < |s.streams| && s.streams[id].stage.Open? then s.streams[id].stage.status else None
  }

  /** A stream ends with the last that is said about it and not before, in the way that says; every other
      stream and the number of requests stay as they are. */
  lemma FinalEventsEndStreams(s: Client, e: Event)
    requires Enabled(s, e) && !e.Start?
    ensures var t := Next(s, e);
      && |t.streams| == |s.streams| && t.initiated == s.initiated && t.targetsInitiated == s.targetsInitiated
      && (forall i | 0 <= i < |s.streams| && i != e.id :: t.streams[i] == s.streams[i])
      && t.streams[e.id].caller == s.streams[e.id].caller
      && var stage := t.streams[e.id].stage;
         && (stage.Ended? <==> IsFinal(e))
         && (e.PoolReady? ==> stage == Open(None))
         && (e.PoolFailure? ==> stage == Ended(PoolFailed(e.reason)))
         && (e.ResetStream? ==> stage == Ended(Reset))
         && (e.Headers? ==> stage == if e.endStream then Ended(Response(e.status)) else Open(Some(e.status)))
         && ((e.Data? || e.Trailers?) ==>
               stage == if IsFinal(e) then Ended(Response(s.streams[e.id].stage.status.value)) else s.streams[e.id].stage)
  {
  }

  // The status of the first headers of a stream in a run.
  function FirstStatus(es: seq<Event>, id: nat): Option<int> {
    if es == [] then None
    else if es[0].Headers? && es[0].id == id then Some(es[0].status)
    else FirstStatus(es[1..], id)
  }

  lemma {:induction false} EndedStays(s: Client, es: seq<Event>, id: nat)
    requires Possible(s, es) && id < |s.streams| && s.streams[id].stage.Ended?
    ensures id < |After(s, es).streams| && After(s, es).streams[id] == s.streams[id]
    decreases |es|
  {
    if es != [] {
      hide CountEnding;
      assert Next(s, es[0]).streams[id] == s.streams[id];
      EndedStays(Next(s, es[0]), es[1..], id);
    }
  }

  /** A response counts with the status of its own headers, however long after them it ends. */
  lemma {:induction false} ResponsesKeepTheirStatus(s: Client, es: seq<Event>, id: nat, status: int)
    requires Possible(s, es) && !(id < |s.streams| && s.streams[id].stage.Ended?)
    requires id < |After(s, es).streams| && After(s, es).streams[id].stage == Ended(Response(status))
    ensures Some(status) == if Announced(s, id).Some? then Announced(s, id) else FirstStatus(es, id)
    decreases |es|
  {
    hide CountEnding;
    var t := Next(s, es[0]);
    if id < |t.streams| && t.streams[id].stage.Ended? {
      EndedStays(t, es[1..], id);
    } else {
      ResponsesKeepTheirStatus(t, es[1..], id, status);
    }
  }

  // The events of a run that complete a request, and the resets among them.
  function Completions(es: seq<Event>): nat {
    if es == [] then 0 else Bit(IsFinal(es[0]) && !es[0].PoolFailure?) + Completions(es[1..])
  }

  function Resets(es: seq<Event>): nat {
    if es == [] then 0 else Bit(es[0].ResetStream?) + Resets(es[1..])
  }

  /** Over any run the client counts a completion for every response or reset that ended a stream, and a reset
      for every stream reset: none is missed, none counted twice. */
  lemma {:induction false} EveryEndIsCounted(s: Client, es: seq<Event>)
    requires Possible(s, es)
    ensures After(s, es).completed == s.completed + Completions(es)
    ensures After(s, es).tally.resets == s.tally.resets + Resets(es)
    decreases |es|
  {
    if es != [] {
      EveryEndIsCounted(Next(s, es[0]), es[1..]);
    }
  }

  // ---------- Pool failures keep their slots ----------

  lemma NextKeepsFailures(s: Client, e: Event)
    requires Accounted(s) && Enabled(s, e)
    ensures PoolFailures(Next(s, e).streams) >= PoolFailures(s.streams)
  {
    hide Count;
    var s' := Next(s, e);
    forall r ensures Count(s'.streams, Failed(r)) >= Count(s.streams, Failed(r)) {
      if e.Start? {
        if s'.streams != s.streams {
          var x := s'.streams[|s.streams|];
          assert s'.streams == s.streams + [x];
          CountSnoc(s.streams, x, Failed(r));
        }
      } else if s'.streams != s.streams {
        CountUpdate(s.streams, e.id, s'.streams[e.id], Failed(r));
      }
    }
  }

  /** A slot taken by a pool failure is never given back: whatever happens later, the outstanding
      requests stay below the limit less the failures seen so far. */
  lemma {:induction false} FailuresKeepTheirSlots(s: Client, es: seq<Event>)
    requires Accounted(s) && WithinLimit(s) && Possible(s, es) && s.config.backpressure
    ensures PoolFailures(After(s, es).streams) >= PoolFailures(s.streams)
    ensures Count(After(s, es).streams, Outstanding) + PoolFailures(s.streams) <= MaxInFlight(s.config)
    decreases |es|
  {
    if es == [] {
      EndingsPartition(s.streams);
    } else {
      hide Accounted, Count, PoolFailures;
      NextKeeps(s, es[0]);
      NextKeepsFailures(s, es[0]);
      assert WithinLimit(Next(s, es[0])) by { RunStaysWithinLimit(s, es[..1]); assert es[..1] == [es[0]]; }
      FailuresKeepTheirSlots(Next(s, es[0]), es[1..]);
    }
  }

  /** An idle client can start a request again exactly when fewer pool failures than the limit have occurred. */
  lemma IdleClientStartsIff(config: Config, es: seq<Event>, caller: Caller)
    requires Possible(Initial(config), es) && config.backpressure
    requires Count(After(Initial(config), es).streams, Outstanding) == 0
    ensures var s := After(Initial(config), es);
            TryStart(s, caller, true, true, None).1 <==> PoolFailures(s.streams) < MaxInFlight(config)
  {
    hide Initial, After, Possible, Count, Accounted, TryStart;
    InitialIsAccounted(config);
    RunKeeps(Initial(config), es);
    StartsIff(After(Initial(config), es), caller, true, true, None);
  }

  // A run in which the pool fails n requests at once, one after the other.
  function AllFail(n: nat, reason: FailureReason): seq<Event> {
    seq(n, _ => Start(Sequencer, true, true, Some(reason)))
  }

  // One more stream that the pool failed.
  lemma CountFailed(streams: seq<Stream>, caller: Caller, reason: FailureReason)
    ensures var more := streams + [Stream(caller, Ended(PoolFailed(reason)), [(false, false)])];
            Count(more, Outstanding) == Count(streams, Outstanding) && PoolFailures(more) == PoolFailures(streams) + 1
  {
    hide Count;
    var x := Stream(caller, Ended(PoolFailed(reason)), [(false, false)]);
    CountSnoc(streams, x, Outstanding);
    CountSnoc(streams, x, Failed(Overflow));
    CountSnoc(streams, x, Failed(LocalConnectionFailure));
    CountSnoc(streams, x, Failed(RemoteConnectionFailure));
    CountSnoc(streams, x, Failed(Timeout));
  }

  // A start that the pool fails at once leaves one ended stream.
  lemma FailingStart(s: Client, reason: FailureReason)
    requires TryStart(s, Sequencer, true, true, Some(reason)).1
    ensures Next(s, Start(Sequencer, true, true, Some(reason))).streams ==
            s.streams + [Stream(Sequencer, Ended(PoolFailed(reason)), [(false, false)])]
  {
    hide CountEnding;
    var pending, ended := Stream(Sequencer, Pending, []), Stream(Sequencer, Ended(PoolFailed(reason)), [(false, false)]);
    assert pending.calls + [CallFor(PoolFailed(reason))] == [(false, false)];
    assert (s.streams + [pending])[|s.streams| := ended] == s.streams + [ended];
  }

  lemma FailOnce(s: Client, reason: FailureReason)
    requires Accounted(s) && PoolFailures(s.streams) < MaxInFlight(s.config) && Count(s.streams, Outstanding) == 0
    ensures var s' := Next(s, Start(Sequencer, true, true, Some(reason)));
            PoolFailures(s'.streams) == PoolFailures(s.streams) + 1 && Count(s'.streams, Outstanding) == 0
  {
    hide Accounted, Count, PoolFailures, Next, TryStart;
    StartsIff(s, Sequencer, true, true, Some(reason));
    FailingStart(s, reason);
    CountFailed(s.streams, Sequencer, reason);
  }

  lemma {:induction false} FailRepeatedly(s: Client, n: nat, reason: FailureReason)
    requires Accounted(s) && Count(s.streams, Outstanding) == 0 && PoolFailures(s.streams) + n <= MaxInFlight(s.config)
    ensures Possible(s, AllFail(n, reason))
    ensures var s' := After(s, AllFail(n, reason));
            Accounted(s') && PoolFailures(s'.streams) == PoolFailures(s.streams) + n && Count(s'.streams, Outstanding) == 0
    decreases n
  {
    if n > 0 {
      var e := Start(Sequencer, true, true, Some(reason));
      assert AllFail(n, reason) == [e] + AllFail(n - 1, reason);
      hide Accounted, Next, PoolFailures, Count;
      FailOnce(s, reason);
      NextKeeps(s, e);
      FailRepeatedly(Next(s, e), n - 1, reason);
    }
  }

  lemma {:induction false} FullNeverStarts(s: Client, es: seq<Event>)
    requires Accounted(s) && s.config.backpressure && PoolFailures(s.streams) >= MaxInFlight(s.config) && Possible(s, es)
    ensures After(s, es).initiated == s.initiated
    decreases |es|
  {
    if es != [] {
      var e := es[0];
      if e.Start? { StartsIff(s, e.caller, e.pool, e.request, e.failure); }
      assert Next(s, e).initiated == s.initiated;
      hide Accounted, Next, PoolFailures, Count;
      NextKeeps(s, e);
      NextKeepsFailures(s, e);
      FullNeverStarts(Next(s, e), es[1..]);
    }
  }

  /** As many pool failures as the limit, for any reason, stop a closed-loop client for good: they can
      occur from the start, they leave nothing outstanding, and no later run initiates a request. */
  lemma PoolFailuresStopTheClient(config: Config, reason: FailureReason, es: seq<Event>)
    requires config.backpressure
    ensures var all := AllFail(MaxInFlight(config), reason);
      && Possible(Initial(config), all)
      && var s := After(Initial(config), all);
         Count(s.streams, Outstanding) == 0 && (Possible(s, es) ==> After(s, es).initiated == s.initiated)
  {
    hide Initial, After, Possible, Count, Accounted, AllFail, PoolFailures;
    InitialIsAccounted(config);
    FailRepeatedly(Initial(config), MaxInFlight(config), reason);
    var s := After(Initial(config), AllFail(MaxInFlight(config), reason));
    RunKeeps(Initial(config), AllFail(MaxInFlight(config), reason));
    if Possible(s, es) { FullNeverStarts(s, es); }
  }
}
