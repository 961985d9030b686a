/** The windowed stream that replays requests from a remote request source: the client's buffer,
    the two channels and the service, as one step system. */
module RequestStream {
  import opened Wrappers

  const UINT32_MAX: nat := 4294967295

  // A request specifier; which one it is matters only for order.
  type Message = nat

  // ---------- The client ----------

  datatype Client = Client(length: nat, open: bool, inFlight: nat, received: nat, messages: seq<Message>)

  function Increment32(n: nat): nat { if n >= UINT32_MAX then 0 else n + 1 }
  function Decrement32(n: nat): nat { if n == 0 then UINT32_MAX else n - 1 }

  // The second result is what is sent to the service.
  function TrySend(c: Client): (Client, seq<nat>) {
    if c.open then (c.(inFlight := c.length), [c.length]) else (c, [])
  }

  function OnMessage(c: Client, m: Message): Client {
    c.(inFlight := Decrement32(c.inFlight), received := Increment32(c.received), messages := c.messages + [m])
  }

  function MaybeDequeue(c: Client): (Client, Option<Message>, seq<nat>) {
    if c.messages == [] then (c, None, [])
    else
      var popped := c.(messages := c.messages[1..]);
      if popped.inFlight == 0 && |popped.messages| < c.length then
        var (resent, requests) := TrySend(popped);
        (resent, Some(c.messages[0]), requests)
      else (popped, Some(c.messages[0]), [])
  }

  // ---------- The whole system ----------

  // owed: what the service still has to write for the request it is serving.
  // sent and dequeued are the history of both ends.
  datatype System = System(client: Client, requests: seq<nat>, owed: nat, serving: bool, responses: seq<Message>,
                           sent: seq<Message>, dequeued: seq<Message>)

  // start(): the stream is opened, or could not be.
  function Started(length: nat, connected: bool): System {
    var (client, requests) := TrySend(Client(length, connected, 0, 0, []));
    System(client, requests, 0, connected, [], [], [])
  }

  datatype Event = ServiceReads | ServiceWrites(m: Message) | ServiceStops | Receive | RemoteClose | Dequeue

  predicate Enabled(s: System, e: Event) {
    match e
    case ServiceReads => s.serving && s.owed == 0 && s.requests != []
    case ServiceWrites(_) => s.serving && s.owed > 0
    case ServiceStops => s.serving
    case Receive => s.client.open && s.responses != []
    case RemoteClose => s.client.open
    case Dequeue => true
  }

  function Next(s: System, e: Event): System
    requires Enabled(s, e)
  {
    match e
    case ServiceReads => s.(requests := s.requests[1..], owed := s.requests[0])
    case ServiceWrites(m) => s.(owed := s.owed - 1, responses := s.responses + [m], sent := s.sent + [m])
    case ServiceStops => s.(serving := false)
    case Receive => s.(client := OnMessage(s.client, s.responses[0]), responses := s.responses[1..])
    case RemoteClose => s.(client := s.client.(open := false))
    case Dequeue =>
      var (client, m, requests) := MaybeDequeue(s.client);
      s.(client := client, requests := s.requests + requests, dequeued := if m.Some? then s.dequeued + [m.value] else s.dequeued)
  }

  predicate Possible(s: System, es: seq<Event>)
    decreases |es|
  {
    es == [] || (Enabled(s, es[0]) && Possible(Next(s, es[0]), es[1..]))
  }

  function After(s: System, es: seq<Event>): System
    requires Possible(s, es)
    decreases |es|
  {
    if es == [] then s else After(Next(s, es[0]), es[1..])
  }

  // ---------- What every step keeps ----------

  // The window: what the client still waits for is a request on its way, or what the service owes
  // plus what is on its way back. At most one request is on its way.
  ghost predicate Window(s: System) {
    && s.client.inFlight <= s.client.length
    && if s.requests == [] then s.client.inFlight == s.owed + |s.responses|
       else s.requests == [s.client.length] && s.owed == 0 && s.responses == [] && s.client.inFlight == s.client.length
  }

  ghost predicate Buffered(s: System) {
    && (s.client.length > 0 ==> |s.client.messages| + s.client.inFlight <= 2 * s.client.length - 1)
    && (s.client.length == 0 ==> s.client.messages == [] && s.dequeued == [])
  }

  // Nothing is lost or reordered while the stream is open, and the client always waits for
  // something when its buffer is empty.
  ghost predicate InOrder(s: System) {
    if s.client.open then s.dequeued + s.client.messages + s.responses == s.sent
    else s.dequeued + s.client.messages <= s.sent
  }

  ghost predicate Inv(s: System) {
    && s.client.length <= UINT32_MAX
    && s.client.received == (|s.dequeued| + |s.client.messages|) % (UINT32_MAX + 1)
    && (s.client.open ==> Window(s)) && (s.client.inFlight <= s.client.length) && Buffered(s) && InOrder(s)
    && (s.client.open && s.client.messages == [] && s.client.length > 0 ==> s.client.inFlight > 0)
  }

  lemma StartedInv(length: nat, connected: bool)
    requires length <= UINT32_MAX
    ensures Inv(Started(length, connected)) && Started(length, connected).client.length == length
  {
  }

  lemma OneMoreReceived(n: nat)
    ensures Increment32(n % (UINT32_MAX + 1)) == (n + 1) % (UINT32_MAX + 1)
  {
  }

  lemma ReceiveKeeps(s: System)
    requires Inv(s) && Enabled(s, Receive)
    ensures Inv(Next(s, Receive))
  {
    hide Increment32;
    OneMoreReceived(|s.dequeued| + |s.client.messages|);
    assert s.responses == [s.responses[0]] + s.responses[1..];
    assert s.dequeued + (s.client.messages + [s.responses[0]]) + s.responses[1..] == s.dequeued + s.client.messages + s.responses;
  }

  lemma DequeueKeeps(s: System)
    requires Inv(s)
    ensures Inv(Next(s, Dequeue))
  {
    if s.client.messages != [] {
      var m, rest := s.client.messages[0], s.client.messages[1..];
      assert s.client.messages == [m] + rest;
      assert s.dequeued + [m] + rest == s.dequeued + s.client.messages;
    }
  }

  lemma NextKeeps(s: System, e: Event)
    requires Inv(s) && Enabled(s, e)
    ensures Inv(Next(s, e)) && Next(s, e).client.length == s.client.length
  {
    match e
    case Receive => ReceiveKeeps(s);
    case Dequeue => DequeueKeeps(s);
    case ServiceWrites(m) =>
      assert s.dequeued + s.client.messages + (s.responses + [m]) == s.dequeued + s.client.messages + s.responses + [m];
    case _ =>
  }

  lemma {:induction false} RunKeeps(s: System, es: seq<Event>)
    requires Inv(s) && Possible(s, es)
    ensures Inv(After(s, es)) && After(s, es).client.length == s.client.length
    decreases |es|
  {
    if es != [] {
      hide Inv, Next;
      NextKeeps(s, es[0]);
      RunKeeps(Next(s, es[0]), es[1..]);
    }
  }

  // ---------- What holds in every run ----------

  /** In every run: requests come out in the order the service wrote them, none skipped or repeated;
      the client never asks for more than its window nor buffers more than two windows less one; a
      message never arrives when none is awaited, so the unsigned count does not wrap; and everything
      asked for and not yet received is either asked, owed or under way, and something is whenever the
      stream is open and the buffer empty. */
  lemma EveryRunIsWindowed(length: nat, connected: bool, es: seq<Event>)
    requires length <= UINT32_MAX && Possible(Started(length, connected), es)
    ensures var s := After(Started(length, connected), es);
      && s.dequeued + s.client.messages <= s.sent
      && s.client.inFlight <= length && (length > 0 ==> |s.client.messages| + s.client.inFlight <= 2 * length - 1)
      && (Enabled(s, Receive) ==> s.client.inFlight > 0)
      && (s.client.open ==> s.client.inFlight == length * |s.requests| + s.owed + |s.responses| && |s.requests| <= 1)
      && (s.client.open ==> s.dequeued + s.client.messages + s.responses == s.sent)
      && (s.client.open && s.client.messages == [] && length > 0 ==> s.client.inFlight > 0)
      && s.client.received == (|s.dequeued| + |s.client.messages|) % 0x1_0000_0000
  {
    hide Started, After, Possible, Next;
    StartedInv(length, connected);
    RunKeeps(Started(length, connected), es);
    var s := After(Started(length, connected), es);
    assert |s.requests| == 1 ==> length * |s.requests| == length;
    assert s.dequeued + s.client.messages <= s.dequeued + s.client.messages + s.responses;
  }

  /** Taking a request asks for a new window exactly when nothing is awaited and less than a window is left
      in the buffer; so after it an open stream awaits something or still holds a whole window. */
  lemma DequeueAsksAgainIff(s: System)
    requires Inv(s) && s.client.open
    ensures var t, length := Next(s, Dequeue), s.client.length;
      && t.requests == s.requests + (if s.client.messages != [] && s.client.inFlight == 0 && |s.client.messages| <= length then [length] else [])
      && (t.client.inFlight == 0 ==> |t.client.messages| >= length)
      && (t.client.inFlight != s.client.inFlight ==> t.client.inFlight == length)
  {
  }

  // What the service and the network still have to do for a message to reach an empty buffer.
  function Refill(s: System): seq<Event> {
    (if s.requests != [] then [ServiceReads] else []) + (if s.responses == [] then [ServiceWrites(0)] else []) + [Receive]
  }

  /** An open stream with a serving peer never starves: an empty buffer is refilled by at most three
      steps of the service and the network, without the client doing anything. */
  lemma EmptyBufferRefills(s: System)
    requires Inv(s) && s.client.open && s.serving && s.client.messages == [] && s.client.length > 0
    ensures Possible(s, Refill(s)) && After(s, Refill(s)).client.messages != []
  {
    if s.requests != [] {
      var s1 := Next(s, ServiceReads);
      var s2 := Next(s1, ServiceWrites(0));
      assert Refill(s) == [ServiceReads, ServiceWrites(0), Receive];
      assert Possible(s2, [Receive]) && After(s2, [Receive]).client.messages != [];
      assert [ServiceWrites(0), Receive][1..] == [Receive] && Refill(s)[1..] == [ServiceWrites(0), Receive];
    } else if s.responses == [] {
      var s1 := Next(s, ServiceWrites(0));
      assert Refill(s) == [ServiceWrites(0), Receive] && Refill(s)[1..] == [Receive];
      assert Possible(s1, [Receive]) && After(s1, [Receive]).client.messages != [];
    } else {
      assert Refill(s) == [Receive];
    }
  }

  // Some run hands the sequencer a request.
  ghost predicate Yields(length: nat) {
    exists es :: Possible(Started(length, true), es) && After(Started(length, true), es).dequeued != []
  }

  /** A connected client can yield a request exactly when its buffer length is not zero. */
  lemma YieldsIff(length: nat)
    requires length <= UINT32_MAX
    ensures Yields(length) <==> length > 0
  {
    StartedInv(length, true);
    var s := Started(length, true);
    if length > 0 {
      EmptyBufferRefills(s);
      RefillThenDequeue(s);
    } else {
      hide After, Possible, Started;
      forall es | Possible(s, es) ensures After(s, es).dequeued == [] {
        RunKeeps(s, es);
      }
    }
  }

  lemma {:induction false} AfterConcat(s: System, es: seq<Event>, e: Event)
    requires Possible(s, es) && Enabled(After(s, es), e)
    ensures Possible(s, es + [e]) && After(s, es + [e]) == Next(After(s, es), e)
    decreases |es|
  {
    if es == [] {
      assert es + [e] == [e];
    } else {
      assert (es + [e])[1..] == es[1..] + [e];
      AfterConcat(Next(s, es[0]), es[1..], e);
    }
  }

  lemma RefillThenDequeue(s: System)
    requires Possible(s, Refill(s)) && After(s, Refill(s)).client.messages != []
    ensures Possible(s, Refill(s) + [Dequeue]) && After(s, Refill(s) + [Dequeue]).dequeued != []
  {
    hide Refill;
    AfterConcat(s, Refill(s), Dequeue);
  }

  // What onRemoteClose reports as an error.
  predicate ReportsLoss(c: Client) { c.inFlight != 0 || c.received == 0 }

  /** A close is reported as a loss exactly when something asked for had not been received, or the
      number of messages received is a multiple of 2^32, which includes none at all. */
  lemma CloseReportsLossIff(s: System)
    requires Inv(s) && s.client.open
    ensures ReportsLoss(s.client) <==>
            s.requests != [] || s.owed != 0 || s.responses != [] || (|s.dequeued| + |s.client.messages|) % (UINT32_MAX + 1) == 0
  {
    if s.requests != [] && s.client.length == 0 {
      assert s.dequeued + s.client.messages == [];
    }
  }
}
