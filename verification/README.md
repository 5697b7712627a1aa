# Donation page view state — a Dafny model

This project models the data-loading logic of the donation page of a
client-side charity website (`src/pages/Donate.jsx`). It covers two parts:

- **The `reducer`.** It is a small state machine over the view state
  `{loading, error, errorType, charities}`. It has four recognised action
  types: `FETCH_INIT`, `FETCH_SUCCESS`, `LOCATION_FETCH_FAILURE` and
  `CHARITIES_FETCH_FAILURE`. Any other type falls through and leaves the
  state unchanged.
- **`fetchLocationAndCharities`.** Here it is a pure function. It takes how
  each awaited provider call settles (resolved, rejected or never settling)
  and returns the sequence of actions the code dispatches. It also records
  whether the charity provider was called. Folding the reducer over that
  sequence from `initialState` gives the page's final view state.

The one-second timer that always dispatches a charity failure is modelled as
one extra `CHARITIES_FETCH_FAILURE` action. It may sit at any position after
`FETCH_INIT`.

Modules:

- `Wrappers`: `Option`, standing in for `null`.
- `DonateState`: the records, the actions, the reducer, and the fold `Run`
  over a trace. The reducer takes a `DispatchedAction`: an action whose
  `type` is one of the four recognised strings is always the matching
  recognised action, never `Unknown`.
- `DonateTrace`: a summary of what any trace does. Only its last recognised
  action and its last `FETCH_SUCCESS` payload matter. The module also shows
  how inserting a failure action into a trace changes the result.
- `DonateMachine`: the page as a four-phase machine (Loading, Loaded,
  LocationFailed, CharitiesFailed). It proves that the reducer implements
  this machine.
- `DonateFetch`: the dispatch sequence, the timer, and the end-to-end
  properties.

The model shows two behaviours of the code as written:

- The `catch` block dispatches `FETCH_FAILURE`, and the reducer has no case
  for it. So, timer aside, a thrown exception leaves the page in its initial
  loading state. Loading ends only when the timer fires, and then the page
  shows the timer's generic charity error (`ThrownThenTimer`).
- The timer is never cancelled. When it fires last, which happens whenever
  both provider calls settle within its delay, it overrides every outcome
  (`TimerLastOverrides`, from `TimerPlacement`). A success shows the charity
  error while the fetched list stays in the state. A location warning
  becomes the charity error panel. A charity failure's own message is
  replaced by the timer's generic one.

The lemmas about `Final` describe the state before the timer fires; the
lemmas about `TimedFinal` describe the state after it.

A failure action keeps the existing `charities` rather than clearing them.
Without the timer, a failed page shows an empty list only because nothing
filled it before: only `FETCH_SUCCESS` fills the list, and no failure
follows it. With the timer after a success, the list is kept
(`TimerAfterSuccess`).

The code tests the providers' `error` fields for JavaScript truthiness. So
an empty-string error counts as success (`EmptyLocationErrorIsSuccess`).

## Model

| member | source | states |
|---|---|---|
| DonateState.InitialStateConsistent | src/pages/Donate.jsx:13-18 | the initial state is loading, has no charities, and satisfies the invariant: `error` is null exactly when `errorType` is null, and a loading state has a null `errorType` |
| DonateState.Reducer | src/pages/Donate.jsx:20-49 | only FETCH_SUCCESS replaces `charities`; a recognised action sets `loading` to true exactly for FETCH_INIT and clears the error for FETCH_INIT/FETCH_SUCCESS; a failure records its message and a non-null kind; an unrecognised action returns the state unchanged; the invariant is preserved by every action with a non-null failure payload |
| DonateState.RecognisedByType | src/pages/Donate.jsx:21-47 | the reducer has a case for an action exactly when its `type` is one of the four recognised strings |
| DonateState.FetchInitEffect | src/pages/Donate.jsx:22-23 | FETCH_INIT sets `loading`, clears `error` and `errorType`, and keeps `charities` |
| DonateState.FetchSuccessEffect | src/pages/Donate.jsx:24-31 | FETCH_SUCCESS(p) stops loading, clears the error, and sets `charities` to p, whatever the prior state |
| DonateState.FailureEffect | src/pages/Donate.jsx:32-45 | LOCATION_FETCH_FAILURE(m) and CHARITIES_FETCH_FAILURE(m) stop loading, set `error` to m and `errorType` to location or charities, and keep `charities` |
| DonateState.UnknownIsNoOp | src/pages/Donate.jsx:46-47 | an action of any other type (not one of the four recognised strings) leaves the state unchanged |
| DonateState.NullPayloadBreaksConsistency | src/pages/Donate.jsx:32-45 | a failure with a null payload sets `errorType` but leaves `error` null, so the invariant needs non-null payloads |
| DonateState.Run | src/pages/Donate.jsx:52 | reducing a trace of actions with non-null failure payloads from a consistent state ends in a consistent state (`error` null exactly when `errorType` null, and `errorType` null while loading) |
| DonateState.RunAppend | src/pages/Donate.jsx:52 | reducing two traces one after the other equals reducing their concatenation |
| DonateTrace.RunIsSettled | src/pages/Donate.jsx:20-49 | the state after any trace of dispatched actions is fixed by its last recognised action, applied to the start state, and by its last FETCH_SUCCESS payload, or the start state's list if there is none |
| DonateTrace.UnrecognisedTraceIsNoOp | src/pages/Donate.jsx:46-47 | a trace of unrecognised actions leaves every state unchanged |
| DonateTrace.InsertNonSuccess | src/pages/Donate.jsx:20-49 | inserting a non-success action at position k changes the final state only when no recognised action follows it; then the result is that action applied to the uninserted final state |
| DonateMachine.ReducerRefinesStep | src/pages/Donate.jsx:20-49 | on consistent states, the reducer implements the four-phase machine's step: phase of the new state equals the machine step from the old phase |
| DonateMachine.RunRefinesSteps | src/pages/Donate.jsx:20-49 | the same holds for whole traces: the phase after a trace is the machine run over it, and consistency is kept throughout |
| DonateFetch.Fetch | src/pages/Donate.jsx:55-82 | the sequence starts with FETCH_INIT and has at most one more action; that action is never FETCH_INIT, and every action is well tagged with a non-null payload; the charity provider is called exactly when the location reply has no truthy error; the sequence stops at FETCH_INIT exactly when an awaited call never settles |
| DonateFetch.LocationFailureShortCircuits | src/pages/Donate.jsx:64-68 | a location error m gives the trace [FETCH_INIT, LOCATION_FETCH_FAILURE(m)] whatever the charity outcome and never calls the charity provider; without the timer it ends in loading=false, error=m, errorType=location, no charities |
| DonateFetch.EmptyLocationErrorIsSuccess | src/pages/Donate.jsx:64-65 | the truthiness test `Truthy` treats an empty-string location error as falsy, so the fetch behaves exactly as with no error and calls the charity provider |
| DonateFetch.CharityFailureFinal | src/pages/Donate.jsx:71-73 | without the timer, after a location success, a charity error m ends in loading=false, error=m, errorType=charities, no charities |
| DonateFetch.CharitySuccessFinal | src/pages/Donate.jsx:71-76 | without the timer, after a location success, a charity success ends in loading=false, no error, and `charities` equal to the provider's list |
| DonateFetch.UnsettledOrThrownStaysLoading | src/pages/Donate.jsx:77-81 | when an awaited call throws, the catch block's FETCH_FAILURE is a no-op; a call that never settles behaves the same; either way, without the timer, the state stays the initial, loading state |
| DonateFetch.ThrownThenTimer | src/pages/Donate.jsx:57-81 | after a thrown exception or a call that never settles, the timer at any position gives loading=false, errorType=charities, the timer's message and no charities |
| DonateFetch.StopsLoadingIff | src/pages/Donate.jsx:55-82 | without the timer, loading ends exactly when the location call returns an error or both calls return without throwing |
| DonateFetch.WithTimer | src/pages/Donate.jsx:57-62 | the timer's CHARITIES_FETCH_FAILURE with the generic message is inserted at position k after FETCH_INIT, with the actions before and after it kept in order |
| DonateFetch.TimerLastOverrides | src/pages/Donate.jsx:57-62 | when the timer fires last, every outcome ends with loading=false, errorType=charities and the timer's message, keeping only the untimed charity list |
| DonateFetch.TimerPlacement | src/pages/Donate.jsx:57-62 | for every position after FETCH_INIT: if the timer comes last, or only the no-op FETCH_FAILURE follows it, the final state is the timer's charity failure applied to the untimed final state; otherwise the final state is the untimed one |
| DonateFetch.TimerAfterSuccess | src/pages/Donate.jsx:57-62 | the timer firing after FETCH_SUCCESS(list) gives loading=false, errorType=charities and the timer's message, with `charities` still equal to list |
| DonateFetch.TimerAlwaysEndsLoading | src/pages/Donate.jsx:57-62 | with the timer at any position, every provider outcome ends with loading=false in a consistent state |
| DonateFetch.TimedRunStaysConsistent | src/pages/Donate.jsx:55-82 | every intermediate state of a timed run satisfies the invariant |

## Left out

- `src/App.jsx` is not part of this model. It holds the route table and the
  internationalisation setup, which are declarative inputs to libraries.
- Rendering (`src/pages/Donate.jsx:90-130`) is left out. This covers the
  alert, error panel, loading indicator, charity cards and counter badge. It
  is presentational.
- The `sessionStorage` read of the stored location (line 88) is left out. So
  are the `console.log` and `console.error` calls. They are side effects that
  do not affect the view state.
- The location and charity providers are external I/O (geolocation and the
  network). They are not visible here, so only how their calls settle is
  modelled. The location `data` is only logged, so it is not modelled.
- Provider error fields are modelled as strings or null. A non-string truthy
  error value is not distinguished from a non-empty string.
- A charity reply with a falsy error is assumed to carry a list. A missing
  `charities` field, which would store `undefined`, is not modelled.
- Real asynchrony is not modelled: `await` suspension, the 1000 ms delay and
  the React `useEffect`/`useCallback` lifecycle. The timer is one action at
  a nondeterministic position.
- Running `fetchLocationAndCharities` more than once is not modelled. That
  includes a re-mount or a development double run, and dispatches after
  unmount. So no property says that re-invocation does not interleave
  states.
