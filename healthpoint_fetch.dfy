/**
 * `getHealthpointData`: one network request for the directory, decoded and
 * tagged, behind a `memoizeOnce` guard. The network request and the JSON
 * decoding are not modelled; their outcome is a parameter.
 */
module HealthpointFetch {
  import opened HealthpointLocations

  /** A rejection value (a network error, a non-array body, malformed JSON). */
  datatype Error = Error(message: string)

  /** What the request plus `r.json()` produced: the decoded array, or a failure. */
  datatype FetchOutcome = Fetched(raws: seq<HealthpointLocationRaw>) | FetchFailed(failure: Error)

  /** How the promise returned by `getHealthpointData` settles. */
  datatype Settlement = Resolved(locations: seq<HealthpointLocation>) | Rejected(error: Error)

  /**
   * The producer wrapped by `memoizeOnce`: a successful request resolves with
   * every decoded entry tagged, in the same order; a failed one rejects with
   * the same error.
   */
  function GetHealthpointData(outcome: FetchOutcome): (s: Settlement)
    ensures s.Resolved? <==> outcome.Fetched?
    ensures s.Resolved? ==> UntagAll(s.locations) == outcome.raws
    ensures s.Rejected? ==> s.error == outcome.failure
  {
    match outcome
    case Fetched(raws) => UntagAllTagAll(raws); Resolved(TagAll(raws))
    case FetchFailed(e) => Rejected(e)
  }

  /**
   * The `memoizeOnce` guard around the producer, reduced to the one thing this
   * model relies on: however often `getHealthpointData` is called, the
   * wrapped producer (and so the network request) runs at most once.
   */
  class OnceGuard {
    var started: bool
    ghost var producerRuns: nat

    ghost predicate Valid()
      reads this
    {
      producerRuns == if started then 1 else 0
    }

    constructor ()
      ensures Valid() && !started && producerRuns == 0
    {
      started := false;
      producerRuns := 0;
    }

    /** One call of the memoized function; `runsProducer` says whether this call started the producer. */
    method Call() returns (runsProducer: bool)
      requires Valid()
      modifies this
      ensures Valid() && started
      ensures runsProducer <==> !old(started)
      ensures producerRuns == old(producerRuns) + (if runsProducer then 1 else 0)
      ensures producerRuns <= 1
    {
      runsProducer := !started;
      if runsProducer {
        started := true;
        producerRuns := producerRuns + 1;
      }
    }
  }
}
