/**
 * `useHealthpointLocations`: the hook that reads the shared Healthpoint
 * context, starts the directory request when the shared value is `null`,
 * and publishes what it got back into the context.
 */
module HealthpointContext {
  import opened HealthpointLocations
  import opened HealthpointFetch

  /**
   * The shared context value: `null`, the provider's initial
   * `{ loading: true }`, an error result, or a published list of locations.
   */
  datatype SharedValue =
    | Null
    | Loading
    | Failure(error: Error)
    | Published(locations: seq<HealthpointLocation>)

  /** The value the `then`/`catch` callbacks hand to `setValue`: the list, or `[]` on a rejection. */
  function PublishedValue(s: Settlement): (v: SharedValue)
    ensures v.Published?
    ensures s.Resolved? ==> v.locations == s.locations
    ensures s.Rejected? ==> v.locations == []
  {
    match s
    case Resolved(locations) => Published(locations)
    case Rejected(_) => Published([])
  }

  /** The provider's `{ value, setValue }` pair. */
  class LocationsContext {
    var value: SharedValue

    constructor (initial: SharedValue)
      ensures value == initial
    {
      value := initial;
    }

    /**
     * The effect of `useHealthpointLocations`: calls the memoized
     * `getHealthpointData` only when the shared value is `null`; it never
     * writes the value itself.
     */
    method Effect(guard: OnceGuard) returns (triggered: bool)
      requires guard.Valid()
      modifies guard
      ensures triggered <==> value == Null
      ensures guard.Valid()
      ensures triggered ==> guard.started
      ensures !triggered ==> guard.started == old(guard.started) && guard.producerRuns == old(guard.producerRuns)
    {
      triggered := value == Null;
      if triggered {
        var _ := guard.Call();
      }
    }

    /**
     * A `then` or `catch` callback of that call: `setValue(locations)` or,
     * after logging, `setValue([])`. The callback writes whatever the value is
     * by then, and never writes an error.
     */
    method OnSettled(s: Settlement)
      modifies this
      ensures value == PublishedValue(s)
      ensures !value.Failure? && value != Null && value != Loading
    {
      value := PublishedValue(s);
    }
  }

  /**
   * Under the provider as the application mounts it, whose initial value is
   * `{ loading: true }` and not `null`, the hook starts no request and the
   * value stays loading.
   */
  method MountUnderProvider() returns (triggered: bool, value: SharedValue)
    ensures !triggered
    ensures value == Loading
  {
    var context := new LocationsContext(Loading);
    var guard := new OnceGuard();
    triggered := context.Effect(guard);
    value := context.value;
  }

  /**
   * From a `null` value: the hook triggers the request, then a re-render with
   * the published value triggers nothing more. A second caller of the
   * memoized function (the effect of `useHealthpointData`) does not start
   * the producer again, so the producer runs exactly once. A rejection
   * publishes the empty list.
   */
  method MountFromNull(outcome: FetchOutcome)
    returns (firstTriggered: bool, secondTriggered: bool, otherCallerRuns: bool, value: SharedValue, ghost runs: nat)
    ensures firstTriggered && !secondTriggered && !otherCallerRuns
    ensures runs == 1
    ensures outcome.Fetched? ==> value == Published(TagAll(outcome.raws))
    ensures outcome.FetchFailed? ==> value == Published([])
  {
    var context := new LocationsContext(Null);
    var guard := new OnceGuard();
    firstTriggered := context.Effect(guard);
    otherCallerRuns := guard.Call();
    context.OnSettled(GetHealthpointData(outcome));
    secondTriggered := context.Effect(guard);
    value := context.value;
    runs := guard.producerRuns;
  }
}
