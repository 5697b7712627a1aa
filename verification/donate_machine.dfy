/**
 The donation view as a four-phase machine: Loading, Loaded, LocationFailed
 and CharitiesFailed. `Step` is the machine's transition function, written
 independently of the record-update reducer; `PhaseOf` reads the phase off a
 consistent view state, and the lemmas show the reducer implements the
 machine step for step.
 */
module DonateMachine {
  import opened Wrappers
  import opened DonateState

  datatype Phase = Loading | Loaded | LocationFailed(message: string) | CharitiesFailed(message: string)

  function PhaseOf(s: State): Phase
    requires Consistent(s)
  {
    if s.loading then Loading
    else match s.errorType
      case Unset => Loaded
      case Location => LocationFailed(s.error.value)
      case Charities => CharitiesFailed(s.error.value)
  }

  /** No phase is final: every recognised action moves the machine, from any phase. */
  function Step(p: Phase, a: Action): Phase
    requires NonNullPayload(a)
  {
    match a
    case FetchInit => Loading
    case FetchSuccess(_) => Loaded
    case LocationFetchFailure(m) => LocationFailed(m.value)
    case CharitiesFetchFailure(m) => CharitiesFailed(m.value)
    case Unknown(_, _) => p
  }

  function Steps(p: Phase, t: seq<DispatchedAction>): Phase
    requires forall i :: 0 <= i < |t| ==> NonNullPayload(t[i])
    decreases |t|
  {
    if t == [] then p else Steps(Step(p, t[0]), t[1..])
  }

  lemma ReducerRefinesStep(s: State, a: DispatchedAction)
    requires Consistent(s) && NonNullPayload(a)
    ensures Consistent(Reducer(s, a))
    ensures PhaseOf(Reducer(s, a)) == Step(PhaseOf(s), a)
  {
  }

  lemma {:induction false} RunRefinesSteps(s: State, t: seq<DispatchedAction>)
    requires Consistent(s)
    requires forall i :: 0 <= i < |t| ==> NonNullPayload(t[i])
    ensures Consistent(Run(s, t))
    ensures PhaseOf(Run(s, t)) == Steps(PhaseOf(s), t)
    decreases |t|
  {
    if t != [] {
      ReducerRefinesStep(s, t[0]);
      RunRefinesSteps(Reducer(s, t[0]), t[1..]);
    }
  }
}
