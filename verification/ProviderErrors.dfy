/**
 * Classification of an exception raised while a job is processed: transient failures of saved
 * provider work are requeued. Exceptions are linked by `__cause__`, else `__context__`; the links
 * may form a cycle.
 */
module ProviderErrors {
  import opened Options

  datatype Code = ProviderTimeout | ProviderError | ApiKeyNotConfigured | ApiLimitExceeded | InvalidRequest

  datatype Kind =
    | Network                                  // requests.Timeout, ConnectionError, RemoteDisconnected
    | Api(code: Code, statusCode: Option<int>) // ApiClientError and its subclasses
    | Other

  /**
   * Broken connections, timeouts, 408, 429 and server errors are worth another attempt, and so is a
   * provider error that is not a client error; configuration and limit errors are not.
   */
  lemma TransientFailures(code: Code, status: int)
    ensures Transient(Network) && !Transient(Other)
    ensures Transient(Api(ProviderTimeout, None)) && Transient(Api(ProviderTimeout, Some(status)))
    ensures status in {408, 429} || 500 <= status ==> Transient(Api(code, Some(status)))
    ensures Transient(Api(ProviderError, None)) && (status < 400 ==> Transient(Api(ProviderError, Some(status))))
    ensures code in {ApiKeyNotConfigured, ApiLimitExceeded, InvalidRequest} ==> !Transient(Api(code, None))
    ensures status < 500 && status !in {408, 429} && code in {ApiKeyNotConfigured, ApiLimitExceeded, InvalidRequest} ==>
              !Transient(Api(code, Some(status)))
    ensures 400 <= status < 500 && status !in {408, 429} ==> !Transient(Api(ProviderError, Some(status)))
  {}

  type ExcId = int

  datatype Exc = Exc(kind: Kind, cause: Option<ExcId>, context: Option<ExcId>)

  type Heap = map<ExcId, Exc>

  predicate Transient(kind: Kind) {
    match kind
    case Network => true
    case Api(code, statusCode) =>
      || code.ProviderTimeout?
      || (statusCode.Some? && (statusCode.value == 408 || statusCode.value == 429 || statusCode.value >= 500))
      || (code.ProviderError? && (statusCode.None? || statusCode.value < 400))
    case Other => false
  }

  function Next(heap: Heap, id: Option<ExcId>): Option<ExcId> {
    if id.None? || id.value !in heap then None
    else if heap[id.value].cause.Some? then heap[id.value].cause
    else heap[id.value].context
  }

  /** Every link leads to an exception. */
  predicate Closed(heap: Heap) {
    forall id :: id in heap && Next(heap, Some(id)).Some? ==> Next(heap, Some(id)).value in heap
  }

  /** The exception `n` links behind `exc`, if the chain is that long. */
  ghost function Linked(heap: Heap, exc: ExcId, n: nat): Option<ExcId> {
    if n == 0 then Some(exc) else Next(heap, Linked(heap, exc, n - 1))
  }

  ghost predicate TransientAt(heap: Heap, exc: ExcId, n: nat) {
    var e := Linked(heap, exc, n);
    e.Some? && e.value in heap && Transient(heap[e.value].kind)
  }

  /** A set that holds the first exception and every successor holds the whole chain. */
  lemma {:induction false} ChainStays(heap: Heap, exc: ExcId, seen: set<ExcId>, n: nat)
    requires exc in seen
    requires forall id :: id in seen ==> Next(heap, Some(id)).None? || Next(heap, Some(id)).value in seen
    ensures Linked(heap, exc, n).None? || Linked(heap, exc, n).value in seen
  {
    if n > 0 {
      ChainStays(heap, exc, seen, n - 1);
    }
  }

  /** Terminates on cyclic chains, and finds a transient exception exactly if the chain holds one. */
  method IsTransientProviderError(heap: Heap, exc: ExcId) returns (transient: bool)
    requires Closed(heap) && exc in heap
    ensures transient <==> exists n: nat :: TransientAt(heap, exc, n)
  {
    var current := Some(exc);
    var seen: set<ExcId> := {};
    ghost var n: nat := 0;
    while current.Some? && current.value !in seen
      invariant current == Linked(heap, exc, n)
      invariant current.Some? ==> current.value in heap
      invariant seen <= heap.Keys
      invariant n == 0 ==> seen == {}
      invariant n > 0 ==> exc in seen
      invariant forall id :: id in seen ==> !Transient(heap[id].kind)
      invariant forall id :: id in seen ==>
                  Next(heap, Some(id)).None? || Next(heap, Some(id)).value in seen || Next(heap, Some(id)) == current
      decreases heap.Keys - seen
    {
      var id := current.value;
      seen := seen + {id};
      if Transient(heap[id].kind) {
        assert TransientAt(heap, exc, n);
        return true;
      }
      assert current == Some(id);
      current := Next(heap, current);
      n := n + 1;
    }
    forall m: nat ensures !TransientAt(heap, exc, m) {
      ChainStays(heap, exc, seen, m);
      var e := Linked(heap, exc, m);
      if e.Some? {
        var id := e.value;
        assert id in seen && !Transient(heap[id].kind);
      }
    }
    return false;
  }

  /** A raised exception with everything linked behind it. */
  datatype Chain = Chain(heap: Heap, first: ExcId)

  type Raised = c: Chain | Closed(c.heap) && c.first in c.heap witness Chain(map[0 := Exc(Other, None, None)], 0)

  ghost predicate TransientChain(c: Raised) {
    exists n: nat :: TransientAt(c.heap, c.first, n)
  }

  method Classify(c: Raised) returns (transient: bool)
    ensures transient <==> TransientChain(c)
  {
    transient := IsTransientProviderError(c.heap, c.first);
  }

  /** The polling deadline has passed. */
  const DEADLINE: Raised := Chain(map[0 := Exc(Api(ProviderTimeout, None), None, None)], 0)

  /** `AstrometryProviderWorkNotFound`, raised from the client error of the 404 answer. */
  const WORK_NOT_FOUND: Raised := Chain(
    map[0 := Exc(Api(ProviderError, Some(404)), Some(1), Some(1)),
        1 := Exc(Api(ProviderError, Some(404)), None, None)], 0)

  /** The provider answered a submission without taking it. */
  const UPLOAD_FAILED: Raised := Chain(map[0 := Exc(Api(ProviderError, None), None, None)], 0)

  /** A passed deadline and a refused upload may be resumed later; missing work may not. */
  lemma KnownFailures()
    ensures TransientChain(DEADLINE) && TransientChain(UPLOAD_FAILED) && !TransientChain(WORK_NOT_FOUND)
  {
    assert TransientAt(DEADLINE.heap, 0, 0);
    assert TransientAt(UPLOAD_FAILED.heap, 0, 0);
    forall n: nat ensures !TransientAt(WORK_NOT_FOUND.heap, 0, n) {
      ChainStays(WORK_NOT_FOUND.heap, 0, {0, 1}, n);
    }
  }
}
