/**
 * `useHealthpointData` and `useHealthpointLocationsFiltered`: two nullable
 * slots written by the promise callbacks, read as a three-way result with a
 * fixed precedence, and the walk-in filter applied to the `ok` variant only.
 */
module HealthpointResult {
  import opened Wrappers
  import opened HealthpointLocations
  import opened HealthpointFilter
  import opened HealthpointFetch

  /** `{ ok: locations } | { error } | { loading: true }`. */
  datatype HealthpointDataResult =
    | Ok(ok: seq<HealthpointLocation>)
    | Failed(error: Error)
    | Loading

  /**
   * Reads the two slots: an error wins over data, data wins over loading, and
   * exactly one variant results.
   */
  function Classify(locations: Option<seq<HealthpointLocation>>, error: Option<Error>): (r: HealthpointDataResult)
    ensures r.Failed? <==> error.Some?
    ensures r.Failed? ==> r.error == error.value
    ensures r.Ok? <==> error.None? && locations.Some?
    ensures r.Ok? ==> r.ok == locations.value
    ensures r.Loading? <==> error.None? && locations.None?
  {
    if error.Some? then Failed(error.value)
    else if locations.Some? then Ok(locations.value)
    else Loading
  }

  /** `useHealthpointLocationsFiltered`: filters the `ok` variant and passes the others through. */
  function Filtered(r: HealthpointDataResult): (f: HealthpointDataResult)
    ensures f.Ok? <==> r.Ok?
    ensures f.Ok? ==> f.ok == FilterHealthpointLocation(r.ok)
    ensures !r.Ok? ==> f == r
    ensures f.Ok? ==> forall l :: l in f.ok <==> l in r.ok && IsWalkInEligible(l)
  {
    if r.Ok? then
      var kept := FilterHealthpointLocation(r.ok);
      assert forall l :: l in kept <==> l in r.ok && IsWalkInEligible(l) by {
        forall l ensures l in kept <==> l in r.ok && IsWalkInEligible(l) {
          FilterMembership(r.ok, l);
        }
      }
      Ok(kept)
    else r
  }

  /** Filtering an already filtered result changes nothing. */
  lemma FilteredIdempotent(r: HealthpointDataResult)
    ensures Filtered(Filtered(r)) == Filtered(r)
  {
    if r.Ok? {
      FilterIdempotent(r.ok);
    }
  }

  /** The state of one `useHealthpointData` instance: its two `useState` slots. */
  class HealthpointData {
    var healthpointLocations: Option<seq<HealthpointLocation>>
    var error: Option<Error>

    /** Both slots start out `null`, so the first read is `loading`. */
    constructor ()
      ensures healthpointLocations.None? && error.None?
      ensures Read() == Loading
    {
      healthpointLocations := None;
      error := None;
    }

    /** The value the hook returns on a render. */
    function Read(): HealthpointDataResult
      reads this
    {
      Classify(healthpointLocations, error)
    }

    /** The `then` callback: `setHealthpointLocations(locations)`. A recorded error still wins. */
    method OnResolve(locations: seq<HealthpointLocation>)
      modifies this
      ensures healthpointLocations == Some(locations) && error == old(error)
      ensures old(error).Some? ==> Read() == old(Read())
      ensures old(error).None? ==> Read() == Ok(locations)
    {
      healthpointLocations := Some(locations);
    }

    /** The `catch` callback: `setError(err)`. The result is the error whatever data was recorded. */
    method OnReject(e: Error)
      modifies this
      ensures error == Some(e) && healthpointLocations == old(healthpointLocations)
      ensures Read() == Failed(e)
    {
      error := Some(e);
    }

    /** The effect: call `getHealthpointData` and record how its promise settles. */
    method Settle(s: Settlement)
      modifies this
      ensures s.Resolved? ==> healthpointLocations == Some(s.locations) && error == old(error)
      ensures s.Rejected? ==> error == Some(s.error) && healthpointLocations == old(healthpointLocations)
      ensures Read() != Loading
      ensures old(Read()).Failed? ==> Read().Failed?
    {
      match s
      case Resolved(locations) => OnResolve(locations);
      case Rejected(e) => OnReject(e);
    }
  }

  /**
   * One mounted `useHealthpointLocationsFiltered`: loading before the
   * directory request settles, then the filtered directory or the error.
   */
  method MountFiltered(outcome: FetchOutcome) returns (before: HealthpointDataResult, after: HealthpointDataResult)
    ensures before == Loading
    ensures outcome.Fetched? ==> after == Ok(FilterHealthpointLocation(TagAll(outcome.raws)))
    ensures outcome.FetchFailed? ==> after == Failed(outcome.failure)
  {
    var data := new HealthpointData();
    before := Filtered(data.Read());
    data.Settle(GetHealthpointData(outcome));
    after := Filtered(data.Read());
  }
}
