/**
 The dispatch sequence of `fetchLocationAndCharities` (src/pages/Donate.jsx).

 The two providers are not modelled; only how each awaited call settles is.
 The one-second timer that unconditionally dispatches a charity failure is a
 single extra action placed anywhere after FETCH_INIT.
 */
module DonateFetch {
  import opened Wrappers
  import opened DonateState
  import opened DonateTrace

  /** How an awaited provider call settles. */
  datatype Settlement<T> =
    | Resolved(reply: T)  // the promise fulfils with an object
    | Rejected            // the promise rejects, or destructuring its value throws
    | Pending             // the promise never settles

  /** The location provider's reply; its `data` is only logged. */
  datatype LocationReply = LocationReply(error: Option<string>)

  datatype CharityReply = CharityReply(error: Option<string>, charities: seq<Charity>)

  /** What one call of `fetchLocationAndCharities` does, timer aside. */
  datatype Execution = Execution(dispatched: seq<DispatchedAction>, charitiesRequested: bool)

  const TimerMessage := "Something went wrong. Please try again later."
  const UnexpectedMessage := "Unexpected error occurred"

  /** The action the timer dispatches after 1000 ms. */
  const TimerAction: DispatchedAction := CharitiesFetchFailure(Some(TimerMessage))

  /** The action the `catch` block dispatches; the reducer has no case for it. */
  const CatchAction: DispatchedAction := Unknown("FETCH_FAILURE", Some(UnexpectedMessage))

  /** JavaScript truthiness of an error field: `null` and `""` are falsy. */
  predicate Truthy(e: Option<string>)
  {
    e.Some? && e.value != ""
  }

  function Fetch(loc: Settlement<LocationReply>, ch: Settlement<CharityReply>): (x: Execution)
    ensures 1 <= |x.dispatched| <= 2 && x.dispatched[0] == FetchInit
    ensures forall i :: 0 <= i < |x.dispatched| ==> NonNullPayload(x.dispatched[i])
    ensures forall i :: 1 <= i < |x.dispatched| ==> x.dispatched[i] != FetchInit
    // the charity provider is called exactly when the location reply carries no truthy error
    ensures x.charitiesRequested <==> loc.Resolved? && !Truthy(loc.reply.error)
    // the sequence stops at FETCH_INIT exactly when an awaited call never settles
    ensures |x.dispatched| == 1 <==> loc.Pending? || (x.charitiesRequested && ch.Pending?)
  {
    match loc
    case Pending => Execution([FetchInit], false)
    case Rejected => Execution([FetchInit, CatchAction], false)
    case Resolved(l) =>
      if Truthy(l.error) then
        Execution([FetchInit, LocationFetchFailure(l.error)], false)
      else
        match ch
        case Pending => Execution([FetchInit], true)
        case Rejected => Execution([FetchInit, CatchAction], true)
        case Resolved(c) =>
          if Truthy(c.error) then Execution([FetchInit, CharitiesFetchFailure(c.error)], true)
          else Execution([FetchInit, FetchSuccess(c.charities)], true)
  }

  /** The view state once every dispatched action has been reduced, timer aside. */
  function Final(loc: Settlement<LocationReply>, ch: Settlement<CharityReply>): State
  {
    Run(InitialState, Fetch(loc, ch).dispatched)
  }

  /** The final state is the reducer applied once or twice to the initial state. */
  lemma FinalUnfold(loc: Settlement<LocationReply>, ch: Settlement<CharityReply>)
    ensures var t := Fetch(loc, ch).dispatched;
            Final(loc, ch) == (if |t| == 1 then Reducer(InitialState, t[0])
                               else Reducer(Reducer(InitialState, t[0]), t[1]))
  {
    var t := Fetch(loc, ch).dispatched;
    RunShort(InitialState, t[0], t[|t| - 1]);
    if |t| == 1 {
      assert t == [t[0]];
    } else {
      assert t == [t[0], t[1]];
    }
  }

  /** `t` with the timer's action placed at position `k`, after FETCH_INIT. */
  function WithTimer(t: seq<DispatchedAction>, k: nat): (r: seq<DispatchedAction>)
    requires 1 <= k <= |t|
    ensures |r| == |t| + 1 && r[k] == TimerAction
    ensures r[..k] == t[..k] && r[k + 1..] == t[k..]
  {
    t[..k] + [TimerAction] + t[k..]
  }

  /** The view state when the timer fires at position `k` of the dispatch sequence. */
  function TimedFinal(loc: Settlement<LocationReply>, ch: Settlement<CharityReply>, k: nat): State
    requires 1 <= k <= |Fetch(loc, ch).dispatched|
  {
    Run(InitialState, WithTimer(Fetch(loc, ch).dispatched, k))
  }

  /**
   A location error short-circuits: the charity provider is never called.
   The final state is the one before the timer fires.
   */
  lemma LocationFailureShortCircuits(m: string, ch: Settlement<CharityReply>, ch': Settlement<CharityReply>)
    requires m != ""
    ensures Fetch(Resolved(LocationReply(Some(m))), ch)
         == Execution([FetchInit, LocationFetchFailure(Some(m))], false)
    ensures Fetch(Resolved(LocationReply(Some(m))), ch) == Fetch(Resolved(LocationReply(Some(m))), ch')
    ensures Final(Resolved(LocationReply(Some(m))), ch) == State(false, Some(m), Location, [])
  {
    FinalUnfold(Resolved(LocationReply(Some(m))), ch);
  }

  /** An empty-string location error is falsy, so the fetch carries on as on success. */
  lemma EmptyLocationErrorIsSuccess(ch: Settlement<CharityReply>)
    ensures Fetch(Resolved(LocationReply(Some(""))), ch) == Fetch(Resolved(LocationReply(None)), ch)
    ensures Fetch(Resolved(LocationReply(Some(""))), ch).charitiesRequested
  {
  }

  /** The final state of a charity failure, timer aside. */
  lemma CharityFailureFinal(l: LocationReply, m: string, cs: seq<Charity>)
    requires !Truthy(l.error) && m != ""
    ensures Final(Resolved(l), Resolved(CharityReply(Some(m), cs))) == State(false, Some(m), Charities, [])
  {
    FinalUnfold(Resolved(l), Resolved(CharityReply(Some(m), cs)));
  }

  /** The final state of a charity success, timer aside. */
  lemma CharitySuccessFinal(l: LocationReply, c: CharityReply)
    requires !Truthy(l.error) && !Truthy(c.error)
    ensures Final(Resolved(l), Resolved(c)) == State(false, None, Unset, c.charities)
  {
    FinalUnfold(Resolved(l), Resolved(c));
  }

  /**
   Timer aside, the `catch` block's FETCH_FAILURE is a no-op, so a thrown
   exception, like a call that never settles, leaves the page in its initial,
   loading state.
   */
  lemma UnsettledOrThrownStaysLoading(loc: Settlement<LocationReply>, ch: Settlement<CharityReply>)
    requires || loc.Rejected? || loc.Pending?
             || (loc.Resolved? && !Truthy(loc.reply.error) && (ch.Rejected? || ch.Pending?))
    ensures Final(loc, ch) == InitialState
  {
    FinalUnfold(loc, ch);
  }

  /**
   What the page ends up showing after a thrown exception or a call that never
   settles: only the timer ends loading, with its generic charity error.
   */
  lemma ThrownThenTimer(loc: Settlement<LocationReply>, ch: Settlement<CharityReply>, k: nat)
    requires || loc.Rejected? || loc.Pending?
             || (loc.Resolved? && !Truthy(loc.reply.error) && (ch.Rejected? || ch.Pending?))
    requires 1 <= k <= |Fetch(loc, ch).dispatched|
    ensures TimedFinal(loc, ch, k) == State(false, Some(TimerMessage), Charities, [])
  {
    TimerPlacement(loc, ch, k);
    UnsettledOrThrownStaysLoading(loc, ch);
  }

  /**
   Without the timer, the page stops loading exactly when the location call
   settles with an error, or both calls settle without throwing.
   */
  lemma StopsLoadingIff(loc: Settlement<LocationReply>, ch: Settlement<CharityReply>)
    ensures !Final(loc, ch).loading
        <==> loc.Resolved? && (Truthy(loc.reply.error) || ch.Resolved?)
  {
    FinalUnfold(loc, ch);
  }

  /**
   Where the timer lands matters only when nothing recognised follows it: when
   it comes last, or when only the `catch` block's no-op comes after it, its
   charity failure is what the page shows; otherwise it is overwritten.
   */
  lemma TimerPlacement(loc: Settlement<LocationReply>, ch: Settlement<CharityReply>, k: nat)
    requires 1 <= k <= |Fetch(loc, ch).dispatched|
    ensures var t := Fetch(loc, ch).dispatched;
            TimedFinal(loc, ch, k)
            == (if k == |t| || !Recognised(t[|t| - 1]) then Reducer(Final(loc, ch), TimerAction) else Final(loc, ch))
  {
    var t := Fetch(loc, ch).dispatched;
    InsertNonSuccess(InitialState, t, k, TimerAction);
    if k < |t| {
      assert t[k..] == [t[|t| - 1]];
    } else {
      assert t[k..] == [];
    }
  }

  /**
   The uncancelled timer overrides a completed success: the charity failure is
   shown while the fetched list stays in the state.
   */
  lemma TimerAfterSuccess(l: LocationReply, c: CharityReply)
    requires !Truthy(l.error) && !Truthy(c.error)
    ensures TimedFinal(Resolved(l), Resolved(c), 2) == State(false, Some(TimerMessage), Charities, c.charities)
  {
    TimerPlacement(Resolved(l), Resolved(c), 2);
    CharitySuccessFinal(l, c);
  }

  /**
   When the timer fires last, which it does whenever both calls settle within
   its delay, it overrides every outcome: a success, a location warning and a
   charity failure's own message all give way to its generic charity error,
   and only the list survives.
   */
  lemma TimerLastOverrides(loc: Settlement<LocationReply>, ch: Settlement<CharityReply>)
    ensures var t := Fetch(loc, ch).dispatched;
            TimedFinal(loc, ch, |t|) == State(false, Some(TimerMessage), Charities, Final(loc, ch).charities)
  {
    TimerPlacement(loc, ch, |Fetch(loc, ch).dispatched|);
  }

  /**
   With the timer, whatever the providers do, the page stops loading and the
   state ends consistent.
   */
  lemma TimerAlwaysEndsLoading(loc: Settlement<LocationReply>, ch: Settlement<CharityReply>, k: nat)
    requires 1 <= k <= |Fetch(loc, ch).dispatched|
    ensures !TimedFinal(loc, ch, k).loading
    ensures Consistent(TimedFinal(loc, ch, k))
  {
    TimerPlacement(loc, ch, k);
    FinalUnfold(loc, ch);
    var t := WithTimer(Fetch(loc, ch).dispatched, k);
    assert forall i :: 0 <= i < |t| ==> NonNullPayload(t[i]);
    InitialStateConsistent();
  }

  /**
   Every intermediate state of a timed run satisfies the state invariant; a
   corollary of the contract of `Run`.
   */
  lemma TimedRunStaysConsistent(loc: Settlement<LocationReply>, ch: Settlement<CharityReply>, k: nat, n: nat)
    requires 1 <= k <= |Fetch(loc, ch).dispatched|
    requires n <= |Fetch(loc, ch).dispatched| + 1
    ensures Consistent(Run(InitialState, WithTimer(Fetch(loc, ch).dispatched, k)[..n]))
  {
    var t := WithTimer(Fetch(loc, ch).dispatched, k)[..n];
    assert forall i :: 0 <= i < |t| ==> NonNullPayload(t[i]);
    InitialStateConsistent();
  }
}
