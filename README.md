# Healthpoint directory data: a Dafny model

This project models the Healthpoint data module of a vaccination-booking web
client (`src/today-locations/healthpoint/HealthpointData.ts`). That module
fetches a directory of clinics once per session, tags every entry as
directory-sourced (`isHealthpoint: true`), shares the result through a React
context, reads it back as a three-way result (`ok`, `error`, `loading`), and
filters it down to the clinics that take walk-in or drive-through visits today.

The modules follow the parts of that file:

- `HealthpointLocations` (`healthpoint_location.dfy`): the `Instruction`
  enumeration with its JSON strings, the raw and tagged records, and the
  tagging `map`, with the round trip "tag, then drop the tag, gives the input".
- `HealthpointFilter` (`healthpoint_filter.dfy`): `filterHealthpointLocation`
  as a recursive function over a sequence. Lemmas prove the membership
  if-and-only-if, idempotence, and that the output is the input's
  subsequence at exactly the eligible positions.
- `HealthpointFetch` (`healthpoint_fetch.dfy`): `getHealthpointData` as a
  function of the request's outcome, and the `memoizeOnce` guard as a small
  class whose invariant is that the producer runs at most once.
- `HealthpointResult` (`healthpoint_result.dfy`): the state of
  `useHealthpointData` as a class with its two nullable slots and the
  promise callbacks that write them; the precedence error > data > loading;
  and `useHealthpointLocationsFiltered`.
- `HealthpointContext` (`healthpoint_context.dfy`): the shared context value
  and `useHealthpointLocations`, which starts the request only when the value
  is `null` and publishes the list, or `[]` on a rejection.

The model follows the code where it departs from an idealised design. First,
a failed request in `useHealthpointLocations` publishes the empty list, not
an error. Second, the provider in `src/App.tsx` starts the shared value at
`{ loading: true }`, not `null`. So under that provider the hook never starts
the request; `MountUnderProvider` proves exactly that.

## Model

| member | source | states |
|---|---|---|
| `HealthpointLocations.ParseInstruction` | src/today-locations/healthpoint/HealthpointData.ts:11-19 | a string read as an instruction is that instruction's JSON value |
| `HealthpointLocations.ParseInstructionText` | src/today-locations/healthpoint/HealthpointData.ts:11-19 | every instruction is read back from its own string, so the seven values are distinct |
| `HealthpointLocations.InstructionText` | src/today-locations/healthpoint/HealthpointData.ts:11-19 | each instruction's value is its string in the JSON, e.g. "Walk in", "Drive through", "Eligible GP enrolled patients only", "By invitation only" |
| `HealthpointLocations.ParseInstructions` | src/today-locations/healthpoint/HealthpointData.ts:29 | a decoded instruction list holds an instruction iff its string is in the JSON list; other strings are dropped |
| `HealthpointLocations.Tag` | src/today-locations/healthpoint/HealthpointData.ts:45-48 | the tagged record carries every raw field unchanged; its discriminant is `true` by type |
| `HealthpointLocations.TagUntag` | src/today-locations/healthpoint/HealthpointData.ts:35-37 | a tagged record, whose discriminant is always `true`, is the tagging of its own raw fields |
| `HealthpointLocations.TagAll` | src/today-locations/healthpoint/HealthpointData.ts:45-48 | the tagging map keeps length and order; element i untags to raw element i |
| `HealthpointLocations.UntagAll` | src/today-locations/healthpoint/HealthpointData.ts:45-48 | dropping the tag keeps length and order; element i is record i without its tag |
| `HealthpointLocations.UntagAllTagAll` | src/today-locations/healthpoint/HealthpointData.ts:45-48 | tagging and then dropping the tag gives back the input field for field |
| `HealthpointFilter.IsWalkInEligible` | src/today-locations/healthpoint/HealthpointData.ts:115-124 | the filter callback: open today, lists walk-in or drive-through, and lists neither enrolled-only nor invitation-only |
| `HealthpointFilter.IsWalkInEligibleText` | src/today-locations/healthpoint/HealthpointData.ts:116-124 | the same callback applied to the instruction strings as they arrive in the JSON |
| `HealthpointFilter.FilterHealthpointLocation` | src/today-locations/healthpoint/HealthpointData.ts:113-128 | the output is no longer than the input, and every output record is eligible (that each comes from the input is `FilterMembership`) |
| `HealthpointFilter.FilterMembership` | src/today-locations/healthpoint/HealthpointData.ts:114-125 | a record is in the output iff it is in the input, open today, lists walk-in or drive-through, and lists neither enrolled-only nor invitation-only |
| `HealthpointFilter.FilterKeepsEligible` | src/today-locations/healthpoint/HealthpointData.ts:113-128 | a sequence of eligible records passes through unchanged |
| `HealthpointFilter.FilterIdempotent` | src/today-locations/healthpoint/HealthpointData.ts:113-128 | filtering the output again returns the same sequence |
| `HealthpointFilter.EligiblePositions` | src/today-locations/healthpoint/HealthpointData.ts:114-126 | the positions of the eligible records lie within the input and strictly increase |
| `HealthpointFilter.EligiblePositionsComplete` | src/today-locations/healthpoint/HealthpointData.ts:114-126 | a position is listed iff the record at it is eligible |
| `HealthpointFilter.FilterLengthIsPositionCount` | src/today-locations/healthpoint/HealthpointData.ts:113-128 | the output has exactly as many records as there are eligible input positions |
| `HealthpointFilter.FilterIsSubsequence` | src/today-locations/healthpoint/HealthpointData.ts:113-128 | output record j is the input record at the j-th eligible position; with the positions increasing, relative order is kept |
| `HealthpointFilter.NeedsWalkInOrDriveThrough` | src/today-locations/healthpoint/HealthpointData.ts:116-118 | a record without walk-in and drive-through, in particular one with no instructions, is dropped |
| `HealthpointFilter.ExclusionWins` | src/today-locations/healthpoint/HealthpointData.ts:116-124 | an open walk-in or drive-through record that is also enrolled-only or invitation-only is dropped |
| `HealthpointFilter.EligibilityIgnoresDuplicates` | src/today-locations/healthpoint/HealthpointData.ts:116-124 | two records with the same open flag and the same set of instructions get the same verdict, whatever the order or repetition |
| `HealthpointFilter.UnknownInstructionsIgnored` | src/today-locations/healthpoint/HealthpointData.ts:116-124 | on the raw strings and on the decoded list the callback gives the same verdict, so a string outside the enumeration changes no verdict |
| `HealthpointFetch.GetHealthpointData` | src/today-locations/healthpoint/HealthpointData.ts:39-50 | the promise resolves iff the request succeeded, with a tagged list that untags to the decoded array in order; otherwise it rejects with the request's error |
| `HealthpointFetch.OnceGuard.constructor` | src/today-locations/healthpoint/HealthpointData.ts:39 | before the first call the producer has not run |
| `HealthpointFetch.OnceGuard.Call` | src/today-locations/healthpoint/HealthpointData.ts:39 | only the first call starts the producer; the producer has run at most once |
| `HealthpointResult.Classify` | src/today-locations/healthpoint/HealthpointData.ts:88-94 | error iff an error is recorded (even with data); ok iff no error and data; loading iff neither; exactly one variant |
| `HealthpointResult.Filtered` | src/today-locations/healthpoint/HealthpointData.ts:102-111 | `ok` maps to `ok` of the filtered list (membership iff eligible); `error` and `loading` pass unchanged |
| `HealthpointResult.FilteredIdempotent` | src/today-locations/healthpoint/HealthpointData.ts:106-110 | filtering an already filtered result changes nothing |
| `HealthpointResult.HealthpointData.constructor` | src/today-locations/healthpoint/HealthpointData.ts:75-78 | both slots start `null`, so the first read is loading |
| `HealthpointResult.HealthpointData.Read` | src/today-locations/healthpoint/HealthpointData.ts:88-94 | the value the hook returns on a render: the two slots read with the precedence of `Classify` |
| `HealthpointResult.HealthpointData.OnResolve` | src/today-locations/healthpoint/HealthpointData.ts:82-84 | records the locations; the read becomes ok unless an error was recorded, which still wins |
| `HealthpointResult.HealthpointData.OnReject` | src/today-locations/healthpoint/HealthpointData.ts:85 | records the error; the read is that error whatever data was recorded |
| `HealthpointResult.HealthpointData.Settle` | src/today-locations/healthpoint/HealthpointData.ts:80-86 | a settled request writes exactly one slot; the read is no longer loading, and an error read stays an error |
| `HealthpointResult.MountFiltered` | src/today-locations/healthpoint/HealthpointData.ts:102-111 | a mounted filtered hook reads loading, then the filtered tagged directory or the request's error |
| `HealthpointContext.PublishedValue` | src/today-locations/healthpoint/HealthpointData.ts:57-63 | the callbacks publish the fetched list, or the empty list on a rejection; never an error |
| `HealthpointContext.LocationsContext.constructor` | src/App.tsx:21-22 | the shared value starts as the provider's initial value |
| `HealthpointContext.LocationsContext.Effect` | src/today-locations/healthpoint/HealthpointData.ts:54-56 | the request is started iff the shared value is `null`; the value itself is not written |
| `HealthpointContext.LocationsContext.OnSettled` | src/today-locations/healthpoint/HealthpointData.ts:57-63 | the value becomes the published list, or `[]` after a rejection; it is never an error, `null` or loading |
| `HealthpointContext.MountUnderProvider` | src/App.tsx:21-22 | from the provider's initial `{ loading: true }` the hook starts no request and the value stays loading |
| `HealthpointContext.MountFromNull` | src/today-locations/healthpoint/HealthpointData.ts:52-67 | from `null` the request starts once, a second memoized caller does not rerun it, the producer runs exactly once, the result is published, and the next render starts nothing |

## Left out

- The network request and `r.json()` (HealthpointData.ts:41-44) are I/O: their outcome is the parameter `FetchOutcome`. A body that is not an array makes `.map` throw; it is one more `FetchFailed`.
- `memoizeOnce` lives in `src/utils/memoize`, which is not part of this model. `OnceGuard` keeps only "the producer runs at most once"; which settlement later callers receive, and whether a failure is cached, are not modelled. Callers pass the settlement in.
- `HealthpointFetch.OnceGuard.Call`: states only that the producer runs at most once, not that every caller shares one promise.
- React's runtime is not modelled: `useState`, `useEffect` dependency lists, re-render timing and the interleaving of promise callbacks. Only the state each callback writes is modelled, one callback at a time.
- `console.error` (HealthpointData.ts:61) is a logging side effect.
- `lat` and `lng` are JavaScript numbers; they are `real` here because nothing in the module reads them. The string and map fields are opaque payload too.
- Only the declared fields of a raw entry are modelled. Extra JSON properties are not; that includes one named `isHealthpoint`, which the spread in `{ isHealthpoint: true, ...l }` would let override the tag.
- Instructions are a closed enumeration in the records. At run time the JSON could hold other strings; `UnknownInstructionsIgnored` proves that dropping them while decoding changes no verdict.
- The rejection value is taken to be truthy, as thrown `Error` objects are. A rejection with a falsy value would leave `useHealthpointData` reading loading.
- The context's declared type lives in `src/contexts`, which is not part of this model. The code shown tests the value only for `null` (HealthpointData.ts:55), writes lists (HealthpointData.ts:58 and 62) and starts it at `{ loading: true }` (App.tsx:22). The `Failure` shape of `SharedValue` is assumed from the type's name, `HealthpointLocationsResult`; no code shown writes or tests it.
