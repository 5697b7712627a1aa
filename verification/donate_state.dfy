/**
 The view state of the donation page and its reducer (src/pages/Donate.jsx).

 The reducer is a total pure function over four recognised action types; any
 other type falls through to the default branch and leaves the state as it is.
 */
module DonateState {
  import opened Wrappers

  /** A charity record as returned by the charity provider. */
  datatype Charity = Charity(
    id: int,
    name: string,
    description: string,
    img: string,
    methods: seq<string>)

  /** The `errorType` field: `null`, `'location'` or `'charities'`. */
  datatype ErrorType = Unset | Location | Charities

  datatype State = State(
    loading: bool,
    error: Option<string>,
    errorType: ErrorType,
    charities: seq<Charity>)

  /** `initialState`: loading, no error, no charities. */
  const InitialState := State(true, None, Unset, [])

  /**
   An action passed to `dispatch`. The failure payloads are optional because
   the reducer copies whatever it is given, `null` included. `Unknown` is any
   action whose `type` the reducer has no case for.
   */
  datatype Action =
    | FetchInit
    | FetchSuccess(payload: seq<Charity>)
    | LocationFetchFailure(message: Option<string>)
    | CharitiesFetchFailure(message: Option<string>)
    | Unknown(kind: string, message: Option<string>)

  /** The `type` string an action carries. */
  function Type(a: Action): string
  {
    match a
    case FetchInit => "FETCH_INIT"
    case FetchSuccess(_) => "FETCH_SUCCESS"
    case LocationFetchFailure(_) => "LOCATION_FETCH_FAILURE"
    case CharitiesFetchFailure(_) => "CHARITIES_FETCH_FAILURE"
    case Unknown(kind, _) => kind
  }

  /** An action the reducer has a case for. */
  predicate Recognised(a: Action)
  {
    !a.Unknown?
  }

  /** The `type` strings the reducer's `switch` has a case for. */
  const RecognisedTypes: set<string> :=
    {"FETCH_INIT", "FETCH_SUCCESS", "LOCATION_FETCH_FAILURE", "CHARITIES_FETCH_FAILURE"}

  /** An `Unknown` action must not carry one of the recognised type strings. */
  predicate WellTagged(a: Action)
  {
    a.Unknown? ==> a.kind !in RecognisedTypes
  }

  /**
   The actions the reducer is given: an `Unknown` whose `type` is one of the
   recognised strings would be taken by that string's case, so it is excluded.
   */
  type DispatchedAction = a: Action | WellTagged(a) witness FetchInit

  predicate IsFailure(a: Action)
  {
    a.LocationFetchFailure? || a.CharitiesFetchFailure?
  }

  /** A failure action whose message is not `null`. */
  predicate NonNullPayload(a: Action)
  {
    IsFailure(a) ==> a.message.Some?
  }

  /**
   The state invariant: `error` is null exactly when `errorType` is null, and
   a state that is still loading records no error.
   */
  predicate Consistent(s: State)
  {
    && (s.error.None? <==> s.errorType == Unset)
    && (s.loading ==> s.errorType == Unset)
  }

  /** `reducer(state, action)`. */
  function Reducer(s: State, a: DispatchedAction): (r: State)
    // only FETCH_SUCCESS replaces the charity list
    ensures r.charities == (if a.FetchSuccess? then a.payload else s.charities)
    // a recognised action decides loading, error and errorType regardless of s
    ensures Recognised(a) ==> r.loading == a.FetchInit?
    ensures Recognised(a) && !IsFailure(a) ==> r.error.None? && r.errorType == Unset
    ensures IsFailure(a) ==> r.error == a.message && r.errorType != Unset
    // the default branch returns the state unchanged
    ensures !Recognised(a) ==> r == s
    ensures Consistent(s) && NonNullPayload(a) ==> Consistent(r)
  {
    match a
    case FetchInit =>
      s.(loading := true, error := None, errorType := Unset)
    case FetchSuccess(cs) =>
      s.(loading := false, charities := cs, error := None, errorType := Unset)
    case LocationFetchFailure(m) =>
      s.(loading := false, error := m, errorType := Location)
    case CharitiesFetchFailure(m) =>
      s.(loading := false, error := m, errorType := Charities)
    case Unknown(_, _) =>
      s
  }

  /** Folds the reducer over a sequence of dispatched actions, first to last. */
  function Run(s: State, t: seq<DispatchedAction>): (r: State)
    ensures Consistent(s) && (forall i :: 0 <= i < |t| ==> NonNullPayload(t[i])) ==> Consistent(r)
    decreases |t|
  {
    if t == [] then s else Run(Reducer(s, t[0]), t[1..])
  }

  lemma InitialStateConsistent()
    ensures Consistent(InitialState)
    ensures InitialState.loading && InitialState.charities == []
  {
  }

  /** For a well-tagged action, the reducer has a case exactly for the four type strings. */
  lemma RecognisedByType(a: Action)
    requires WellTagged(a)
    ensures Recognised(a) <==> Type(a) in RecognisedTypes
  {
  }

  lemma FetchInitEffect(s: State)
    ensures Reducer(s, FetchInit).loading
    ensures Reducer(s, FetchInit).error == None && Reducer(s, FetchInit).errorType == Unset
    ensures Reducer(s, FetchInit).charities == s.charities
  {
  }

  lemma FetchSuccessEffect(s: State, p: seq<Charity>)
    ensures Reducer(s, FetchSuccess(p)) == State(false, None, Unset, p)
  {
  }

  /** Both failure kinds record the message and their kind and keep the charity list. */
  lemma FailureEffect(s: State, m: Option<string>)
    ensures Reducer(s, LocationFetchFailure(m)) == State(false, m, Location, s.charities)
    ensures Reducer(s, CharitiesFetchFailure(m)) == State(false, m, Charities, s.charities)
  {
  }

  lemma UnknownIsNoOp(s: State, kind: string, m: Option<string>)
    requires kind !in RecognisedTypes
    ensures Reducer(s, Unknown(kind, m)) == s
  {
  }

  /** The invariant needs the non-null payload: a null failure message breaks it. */
  lemma NullPayloadBreaksConsistency(s: State)
    ensures !Consistent(Reducer(s, LocationFetchFailure(None)))
    ensures !Consistent(Reducer(s, CharitiesFetchFailure(None)))
  {
  }

  lemma RunShort(s: State, a: DispatchedAction, b: DispatchedAction)
    ensures Run(s, [a]) == Reducer(s, a)
    ensures Run(s, [a, b]) == Reducer(Reducer(s, a), b)
  {
    assert [a][1..] == [];
    assert [a, b][1..] == [b];
    assert Run(Reducer(s, a), [b]) == Run(Reducer(Reducer(s, a), b), []);
  }

  lemma {:induction false} RunSnoc(s: State, t: seq<DispatchedAction>, a: DispatchedAction)
    ensures Run(s, t + [a]) == Reducer(Run(s, t), a)
    decreases |t|
  {
    if t != [] {
      assert (t + [a])[0] == t[0];
      assert (t + [a])[1..] == t[1..] + [a];
      RunSnoc(Reducer(s, t[0]), t[1..], a);
    }
  }

  /** Running two traces one after the other is running their concatenation. */
  lemma {:induction false} RunAppend(s: State, t: seq<DispatchedAction>, u: seq<DispatchedAction>)
    ensures Run(s, t + u) == Run(Run(s, t), u)
    decreases |t|
  {
    if t == [] {
      assert t + u == u;
    } else {
      assert (t + u)[0] == t[0];
      assert (t + u)[1..] == t[1..] + u;
      RunAppend(Reducer(s, t[0]), t[1..], u);
    }
  }
}
