/** The request stream's client, the static request source and the service loop, as they run. */
module RequestSources {
  import opened RequestStream
  import opened Wrappers

  class RequestStreamGrpcClient {
    const headerBufferLength: nat
    var stream: bool
    var inFlightHeaders: nat
    var totalMessagesReceived: nat
    var messages: seq<Message>
    // What has been sent on the stream.
    ghost var outbox: seq<nat>

    constructor (headerBufferLength: nat)
      ensures Model() == Client(headerBufferLength, false, 0, 0, []) && outbox == []
    {
      this.headerBufferLength := headerBufferLength;
      stream, inFlightHeaders, totalMessagesReceived, messages, outbox := false, 0, 0, [], [];
    }

    function Model(): Client
      reads this
    {
      Client(headerBufferLength, stream, inFlightHeaders, totalMessagesReceived, messages)
    }

    method TrySendRequest()
      modifies this`inFlightHeaders, this`outbox
      ensures Model() == TrySend(old(Model())).0 && outbox == old(outbox) + TrySend(old(Model())).1
    {
      if stream {
        outbox := outbox + [headerBufferLength];
        inFlightHeaders := headerBufferLength;
      }
    }

    /** After start the client and what it sent are the system's first state. */
    method Start(connected: bool)
      requires Model() == Client(headerBufferLength, false, 0, 0, []) && outbox == []
      modifies this
      ensures Model() == Started(headerBufferLength, connected).client
      ensures outbox == Started(headerBufferLength, connected).requests
    {
      stream := connected;
      TrySendRequest();
    }

    method OnReceiveMessage(message: Message)
      modifies this`inFlightHeaders, this`totalMessagesReceived, this`messages
      ensures Model() == OnMessage(old(Model()), message)
    {
      inFlightHeaders := Decrement32(inFlightHeaders);
      totalMessagesReceived := Increment32(totalMessagesReceived);
      messages := messages + [message];
    }

    method OnRemoteClose() returns (loss: bool)
      modifies this`stream
      ensures loss == ReportsLoss(old(Model())) && Model() == old(Model()).(open := false)
    {
      loss := inFlightHeaders != 0 || totalMessagesReceived == 0;
      stream := false;
    }

    /** The oldest buffered message, and a new request when the window has run dry. */
    method MaybeDequeueRequest() returns (request: Option<Message>)
      modifies this
      ensures var (after, front, sent) := MaybeDequeue(old(Model()));
              Model() == after && request == front && outbox == old(outbox) + sent
    {
      request := None;
      if messages != [] {
        request := Some(messages[0]);
        messages := messages[1..];
        if inFlightHeaders == 0 && |messages| < headerBufferLength {
          TrySendRequest();
        }
      }
    }
  }

  // ---------- The static request source ----------

  const TWO_64: nat := 18446744073709551616

  class StaticRequestSource {
    var yieldsLeft: nat

    constructor (maxYields: nat)
      requires maxYields < TWO_64
      ensures yieldsLeft == maxYields
    {
      yieldsLeft := maxYields;
    }

    /** The generator: whether a request is yielded. The unsigned count is decremented even at zero. */
    method Generate() returns (yielded: bool)
      requires yieldsLeft < TWO_64
      modifies this
      ensures yieldsLeft < TWO_64 && yieldsLeft == (old(yieldsLeft) - 1) % TWO_64
      ensures yielded == (old(yieldsLeft) != 0)
    {
      yielded := yieldsLeft != 0;
      yieldsLeft := if yieldsLeft == 0 then TWO_64 - 1 else yieldsLeft - 1;
    }
  }

  // What is left before call number k, counting from zero.
  function LeftBefore(maxYields: nat, k: nat): nat
    requires maxYields < TWO_64
  {
    if k == 0 then maxYields else (LeftBefore(maxYields, k - 1) - 1) % TWO_64
  }

  /** The count runs modulo 2^64. */
  lemma {:induction false} CountdownWraps(maxYields: nat, k: nat)
    requires maxYields < TWO_64
    ensures LeftBefore(maxYields, k) == (maxYields - k) % TWO_64
  {
    if k > 0 {
      CountdownWraps(maxYields, k - 1);
      WrapStep(maxYields - (k - 1), TWO_64);
    }
  }

  lemma WrapStep(x: int, m: nat)
    requires m > 1
    ensures (x % m - 1) % m == (x - 1) % m
  {
    var r, q := x % m, x / m;
    assert x == q * m + r;
    if r == 0 {
      OneLess(q, m);
      RemainderOf(x - 1, q - 1, m - 1, m);
      RemainderOf(-1, -1, m - 1, m);
    } else {
      RemainderOf(x - 1, q, r - 1, m);
      RemainderOf(r - 1, 0, r - 1, m);
    }
  }

  lemma OneLess(q: int, m: nat)
    ensures (q - 1) * m == q * m - m
  {
  }

  lemma RemainderOf(x: int, q: int, r: nat, m: nat)
    requires x == q * m + r && r < m
    ensures x % m == r
  {
    var d := x / m - q;
    assert x % m == r - d * m;
    if d >= 1 { assert false; }
    if d <= -1 { assert false; }
  }

  // The source is exhausted at call k: it was allowed fewer yields, and yields nothing.
  predicate SilentAt(maxYields: nat, k: nat)
    requires maxYields < TWO_64
  {
    LeftBefore(maxYields, k) == 0
  }

  /** The first maxYields calls yield. Of the later ones exactly those 2^64 apart are silent; the
      promise that an exhausted source stays silent holds for the first silent call only. */
  lemma SilentIff(maxYields: nat, k: nat)
    requires maxYields < TWO_64
    ensures SilentAt(maxYields, k) <==> k >= maxYields && (k - maxYields) % TWO_64 == 0
  {
    CountdownWraps(maxYields, k);
    if k < maxYields {
      assert (maxYields - k) % TWO_64 == maxYields - k;
    } else {
      NegatedRemainder(k - maxYields, TWO_64);
      assert maxYields - k == -(k - maxYields);
    }
  }

  lemma NegatedRemainder(x: int, m: nat)
    requires m > 0
    ensures (-x) % m == 0 <==> x % m == 0
  {
    if x % m == 0 {
      assert -x == (-(x / m)) * m + 0;
      RemainderOf(-x, -(x / m), 0, m);
    }
    if (-x) % m == 0 {
      assert x == (-((-x) / m)) * m + 0;
      RemainderOf(x, -((-x) / m), 0, m);
    }
  }

  /** An exhausted source yields again on the very next call. */
  lemma ExhaustedSourceYieldsAgain(maxYields: nat)
    requires maxYields < TWO_64
    ensures SilentAt(maxYields, maxYields) && !SilentAt(maxYields, maxYields + 1)
  {
    SilentIff(maxYields, maxYields);
    SilentIff(maxYields, maxYields + 1);
  }

  // ---------- The service ----------

  function Sum(quantities: seq<nat>): nat {
    if quantities == [] then 0 else Sum(quantities[..|quantities| - 1]) + quantities[|quantities| - 1]
  }

  // The first n writes all succeed.
  ghost predicate AllWritten(writes: nat -> bool, n: nat) {
    forall i :: 0 <= i < n ==> writes(i)
  }

  lemma {:induction false} SumOfPrefix(quantities: seq<nat>, n: nat)
    requires n <= |quantities|
    ensures Sum(quantities[..n]) <= Sum(quantities)
    decreases |quantities|
  {
    if n < |quantities| {
      assert quantities[..|quantities| - 1][..n] == quantities[..n];
      SumOfPrefix(quantities[..|quantities| - 1], n);
    } else {
      assert quantities[..n] == quantities;
    }
  }

  /** One request for q messages is answered with exactly q of them, request after request, up to the
      first write that fails; the stream ends with an error exactly when a write failed. */
  method RequestStreamService(quantities: seq<nat>, writes: nat -> bool) returns (written: nat, ok: bool)
    requires forall i :: 0 <= i < |quantities| ==> quantities[i] <= UINT32_MAX
    ensures ok <==> AllWritten(writes, Sum(quantities))
    ensures ok ==> written == Sum(quantities)
    ensures !ok ==> written < Sum(quantities) && AllWritten(writes, written) && !writes(written)
  {
    written, ok := 0, true;
    var i := 0;
    while i < |quantities|
      invariant i <= |quantities| && ok && written == Sum(quantities[..i]) && AllWritten(writes, written)
    {
      var requestSource := new StaticRequestSource(quantities[i]);
      assert quantities[..i + 1][..i] == quantities[..i];
      SumOfPrefix(quantities, i + 1);
      var yielded := requestSource.Generate();
      while ok && yielded
        invariant ok ==> AllWritten(writes, written)
        invariant ok && yielded ==> written + requestSource.yieldsLeft + 1 == Sum(quantities[..i + 1])
        invariant ok && !yielded ==> written == Sum(quantities[..i + 1])
        invariant requestSource.yieldsLeft < TWO_64 && (ok && yielded ==> requestSource.yieldsLeft <= UINT32_MAX)
        invariant !ok ==> written < Sum(quantities) && AllWritten(writes, written) && !writes(written)
        decreases ok, if yielded then requestSource.yieldsLeft + 1 else 0
      {
        ok := writes(written);
        if ok {
          written := written + 1;
          yielded := requestSource.Generate();
        }
      }
      if !ok {
        break;
      }
      i := i + 1;
    }
    if ok { assert quantities[..|quantities|] == quantities; }
  }
}
