/**
 * getJSON (request.go): wait for the limiter, GET the URL, map the status code
 * to a sentinel error, and on 429 sleep five seconds and start again.
 *
 * The network is not modelled: each round of the function is an `Attempt`
 * holding what the limiter and the transport gave back that time, and a call
 * is the sequence of attempts it goes through.
 */
module Request {
  import opened Errors

  /** rateLimitTimeout, in nanoseconds. */
  const RateLimitTimeout: int := 5_000_000_000

  const StatusOK := 200
  const StatusBadRequest := 400
  const StatusNotFound := 404
  const StatusTooManyRequests := 429
  const StatusInternalServerError := 500

  /** A response as far as getJSON looks at it: the status and the outcome of reading the body. */
  datatype Response = Response(status: int, body: Result<string>)

  /** One round: the limiter's error (None when it let the request go), then the transport's result. */
  datatype Attempt = Attempt(limiter: Option<Error>, transport: Result<Response>)

  /** What getJSON returns, with the time it spent backing off. */
  datatype Reply = Reply(result: Result<string>, backedOff: int)

  /** Whether an attempt ends in a 429 and so sends getJSON round again. */
  predicate Retries(a: Attempt) {
    a.limiter.None? && a.transport.Success? && a.transport.value.status == StatusTooManyRequests
  }

  /**
   * The result of an attempt that does not retry: the limiter's error first,
   * then the transport's, then the status code; only 200 reads the body.
   */
  function Settle(a: Attempt): (r: Result<string>)
    requires !Retries(a)
    ensures a.limiter.Some? ==> r == Failure(a.limiter.value)
    ensures a.limiter.None? && a.transport.Failure? ==> r == Failure(a.transport.error)
    ensures a.limiter.None? && a.transport.Success? ==>
      var s := a.transport.value.status;
      (s == StatusOK ==> r == a.transport.value.body) &&
      (s == StatusBadRequest ==> r == Failure(BadRequest)) &&
      (s == StatusNotFound ==> r == Failure(NotFound)) &&
      (s == StatusInternalServerError ==> r == Failure(ServerFailure)) &&
      (s !in {StatusOK, StatusBadRequest, StatusNotFound, StatusTooManyRequests, StatusInternalServerError} ==>
         r == Failure(UnknownFailure))
    ensures r.Success? <==> a.limiter.None? && a.transport.Success?
                            && a.transport.value.status == StatusOK && a.transport.value.body.Success?
  {
    match a.limiter
    case Some(e) => Failure(e)
    case None =>
      match a.transport
      case Failure(e) => Failure(e)
      case Success(resp) =>
        if resp.status == StatusOK then resp.body
        else if resp.status == StatusBadRequest then Failure(BadRequest)
        else if resp.status == StatusNotFound then Failure(NotFound)
        else if resp.status == StatusInternalServerError then Failure(ServerFailure)
        else Failure(UnknownFailure)
  }

  /** getJSON only returns once some attempt does not answer 429. */
  predicate Settles(attempts: seq<Attempt>) {
    exists i :: 0 <= i < |attempts| && !Retries(attempts[i])
  }

  /** getJSON over the attempts it makes, recursing on every 429 as the source does. */
  function GetJSON(attempts: seq<Attempt>): (r: Reply)
    requires Settles(attempts)
    ensures r.backedOff >= 0 && r.backedOff % RateLimitTimeout == 0
  {
    if Retries(attempts[0]) then
      var rest := GetJSON(attempts[1..]);
      Reply(rest.result, RateLimitTimeout + rest.backedOff)
    else
      Reply(Settle(attempts[0]), 0)
  }

  /** The index of the first attempt that does not answer 429. */
  function FirstSettled(attempts: seq<Attempt>): (i: nat)
    requires Settles(attempts)
    ensures i < |attempts| && !Retries(attempts[i])
    ensures forall j :: 0 <= j < i ==> Retries(attempts[j])
  {
    if Retries(attempts[0]) then
      assert forall j :: 0 < j < |attempts| ==> attempts[1..][j - 1] == attempts[j];
      1 + FirstSettled(attempts[1..])
    else 0
  }

  /**
   * A call answers as the first attempt that is not a 429 does, after backing
   * off five seconds for every 429 before it.
   */
  lemma {:induction false} GetJSONFirstSettled(attempts: seq<Attempt>)
    requires Settles(attempts)
    ensures GetJSON(attempts).result == Settle(attempts[FirstSettled(attempts)])
    ensures GetJSON(attempts).backedOff == RateLimitTimeout * FirstSettled(attempts)
  {
    if Retries(attempts[0]) {
      var k :| 0 <= k < |attempts| && !Retries(attempts[k]);
      assert attempts[1..][k - 1] == attempts[k];
      GetJSONFirstSettled(attempts[1..]);
    }
  }

  /** A 429 is never what getJSON returns: ErrRateLimited does not come out of it. */
  lemma NeverRateLimited(attempts: seq<Attempt>)
    requires Settles(attempts)
    requires forall i :: 0 <= i < |attempts| ==> attempts[i].limiter != Some(RateLimited)
    requires forall i :: 0 <= i < |attempts| ==>
      attempts[i].transport.Success? ==> attempts[i].transport.value.body != Failure(RateLimited)
    requires forall i :: 0 <= i < |attempts| ==> attempts[i].transport != Failure(RateLimited)
    ensures GetJSON(attempts).result != Failure(RateLimited)
  {
    GetJSONFirstSettled(attempts);
  }
}
