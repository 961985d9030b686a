/** The benchmark client and its stream decoders as the objects the pool and the codec call into. */
module StreamDecoders {
  import opened RequestAccounting
  import opened Wrappers

  class BenchmarkClient {
    const config: Config
    var requestsInitiated: nat
    var requestsCompleted: nat
    var counters: Tally
    // The history of every stream and callback, and the sequencer's own counts.
    ghost var streams: seq<Stream>
    ghost var targetsInitiated: nat
    ghost var targetsCompleted: nat

    constructor (config: Config)
      ensures Model() == Initial(config)
    {
      this.config := config;
      requestsInitiated, requestsCompleted, counters := 0, 0, Tally(0, 0, 0, 0, 0, 0, 0, 0, 0);
      streams, targetsInitiated, targetsCompleted := [], 0, 0;
    }

    ghost function Model(): Client
      reads this
    {
      Client(config, requestsInitiated, requestsCompleted, counters, targetsInitiated, targetsCompleted, streams)
    }

    method OnComplete(success: bool, status: Option<int>)
      requires success ==> status.Some?
      modifies this`requestsCompleted, this`counters
      ensures requestsCompleted == old(requestsCompleted) + 1
      ensures counters == CountEnding(old(counters), if success then Response(status.value) else Reset)
    {
      requestsCompleted := requestsCompleted + 1;
      if !success {
        counters := counters.(resets := counters.resets + 1);
      } else {
        counters := CountResponse(counters, status.value);
      }
    }

    method OnPoolFailure(reason: FailureReason)
      modifies this`counters
      ensures counters == CountEnding(old(counters), PoolFailed(reason))
    {
      match reason {
        case Overflow => counters := counters.(poolOverflow := counters.poolOverflow + 1);
        case LocalConnectionFailure => counters := counters.(poolConnectionFailure := counters.poolConnectionFailure + 1);
        case RemoteConnectionFailure => counters := counters.(poolConnectionFailure := counters.poolConnectionFailure + 1);
        case Timeout =>
      }
    }

    /** Either nothing changes, or one request is initiated and its decoder is handed to the pool,
        which may already have failed it. The sequencer's count of targets is not the client's to change. */
    method TryStartRequest(caller: Caller, pool: bool, request: bool, failure: Option<FailureReason>)
      returns (started: bool, decoder: StreamDecoder?)
      requires requestsCompleted <= requestsInitiated
      modifies this
      ensures var (after, ok) := TryStart(old(Model()), caller, pool, request, failure);
              started == ok && Model() == after.(targetsInitiated := old(targetsInitiated))
      ensures started <==> decoder != null
      ensures started ==> fresh(decoder) && decoder.client == this && decoder.id == old(|streams|) && decoder.Valid()
    {
      decoder := null;
      if !pool {
        return false, null;
      }
      if config.backpressure {
        var maxActiveRequests := 0;
        if config.protocol == Http2 || config.protocol == Http3 {
          maxActiveRequests := config.maxActive;
        } else {
          maxActiveRequests := config.connectionLimit;
        }
        var maxInFlight := config.maxPending + maxActiveRequests;
        if requestsInitiated - requestsCompleted >= maxInFlight {
          return false, null;
        }
      }
      if !request {
        return false, null;
      }
      streams := streams + [Stream(caller, Pending, [])];
      requestsInitiated := requestsInitiated + 1;
      decoder := new StreamDecoder(this, caller, |streams| - 1);
      if failure.Some? {
        decoder.OnPoolFailure(failure.value);
      }
      started := true;
    }
  }

  class StreamDecoder {
    const client: BenchmarkClient
    const caller: Caller
    ghost const id: nat
    var complete: bool
    var responseHeaders: Option<int>

    // The decoder of one of the client's streams.
    ghost predicate Owns()
      reads this, client
    {
      id < |client.streams| && client.streams[id].caller == caller
    }

    ghost predicate Valid()
      reads this, client
    {
      Owns() && match client.streams[id].stage
        case Pending => !complete && responseHeaders.None?
        case Open(status) => !complete && responseHeaders == status
        case Ended(_) => true
    }

    constructor (client: BenchmarkClient, caller: Caller, ghost id: nat)
      requires id < |client.streams| && client.streams[id] == Stream(caller, Pending, [])
      ensures this.client == client && this.id == id && this.caller == caller && Valid()
    {
      this.client, this.caller, this.id, complete, responseHeaders := client, caller, id, false, None;
    }

    // The caller's callback: the sequencer counts the completion.
    ghost method CallBack(done: bool, success: bool, ending: Ending)
      requires Owns()
      modifies client`streams, client`targetsCompleted
      ensures client.streams == old(client.streams[id := Stream(caller, Ended(ending), client.streams[id].calls + [(done, success)])])
      ensures client.targetsCompleted == old(client.targetsCompleted) + Bit(caller == Sequencer)
    {
      client.streams := client.streams[id := Stream(caller, Ended(ending), client.streams[id].calls + [(done, success)])];
      client.targetsCompleted := client.targetsCompleted + Bit(caller == Sequencer);
    }

    method OnPoolReady()
      requires Valid() && client.streams[id].stage.Pending?
      modifies client`streams
      ensures Valid() && client.Model() == Next(old(client.Model()), PoolReady(id))
    {
      client.streams := client.streams[id := client.streams[id].(stage := Open(None))];
    }

    method OnPoolFailure(reason: FailureReason)
      requires Valid() && client.streams[id].stage.Pending?
      modifies client
      ensures Valid() && client.Model() == Next(old(client.Model()), PoolFailure(id, reason))
    {
      client.OnPoolFailure(reason);
      CallBack(false, false, PoolFailed(reason));
    }

    /** The one place a response or a reset is reported; the headers seen, if any, go with it. */
    method OnComplete(success: bool)
      requires Owns() && complete == success && (success ==> responseHeaders.Some?)
      modifies client
      ensures Valid()
      ensures client.Model() == End(old(client.Model()), id, if success then Response(responseHeaders.value) else Reset)
    {
      client.OnComplete(success, responseHeaders);
      CallBack(complete, success, if success then Response(responseHeaders.value) else Reset);
    }

    method DecodeHeaders(status: int, endStream: bool)
      requires Valid() && client.streams[id].stage == Open(None)
      modifies this, client
      ensures Valid() && client.Model() == Next(old(client.Model()), Headers(id, status, endStream))
    {
      complete := endStream;
      responseHeaders := Some(status);
      if complete {
        OnComplete(true);
      } else {
        client.streams := client.streams[id := client.streams[id].(stage := Open(Some(status)))];
      }
    }

    method DecodeData(endStream: bool)
      requires Valid() && client.streams[id].stage.Open? && client.streams[id].stage.status.Some?
      modifies this, client
      ensures Valid() && client.Model() == Next(old(client.Model()), Data(id, endStream))
    {
      complete := endStream;
      if complete {
        OnComplete(true);
      }
    }

    method DecodeTrailers()
      requires Valid() && client.streams[id].stage.Open? && client.streams[id].stage.status.Some?
      modifies this, client
      ensures Valid() && client.Model() == Next(old(client.Model()), Trailers(id))
    {
      complete := true;
      OnComplete(true);
    }

    method OnResetStream()
      requires Valid() && client.streams[id].stage.Open?
      modifies client
      ensures Valid() && client.Model() == Next(old(client.Model()), ResetStream(id))
    {
      OnComplete(false);
    }
  }
}
