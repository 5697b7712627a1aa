/**
 What a whole sequence of dispatched actions does to the view state.

 Every recognised action overwrites `loading`, `error` and `errorType`
 without looking at them, and only FETCH_SUCCESS touches `charities`. So the
 state after a trace is fixed by two things alone: the last recognised action
 and the last FETCH_SUCCESS payload. `Settled` computes that summary and
 `RunIsSettled` proves it equal to the fold of the reducer.
 */
module DonateTrace {
  import opened Wrappers
  import opened DonateState

  /** The last action of `t` that the reducer has a case for. */
  function LastRecognised(t: seq<DispatchedAction>): (r: Option<DispatchedAction>)
    ensures r.Some? ==> Recognised(r.value) && r.value in t
    ensures r.None? <==> forall i :: 0 <= i < |t| ==> !Recognised(t[i])
    decreases |t|
  {
    if t == [] then None
    else if Recognised(t[|t| - 1]) then Some(t[|t| - 1])
    else LastRecognised(t[..|t| - 1])
  }

  /** The payload of the last FETCH_SUCCESS in `t`. */
  function LastSuccess(t: seq<DispatchedAction>): (r: Option<seq<Charity>>)
    ensures r.Some? ==> FetchSuccess(r.value) in t
    ensures r.None? <==> forall i :: 0 <= i < |t| ==> !t[i].FetchSuccess?
    decreases |t|
  {
    if t == [] then None
    else if t[|t| - 1].FetchSuccess? then Some(t[|t| - 1].payload)
    else LastSuccess(t[..|t| - 1])
  }

  /** The state left by `t` from `s`, read off the two summaries above. */
  function Settled(s: State, t: seq<DispatchedAction>): State
  {
    var base := match LastRecognised(t) case None => s case Some(a) => Reducer(s, a);
    base.(charities := match LastSuccess(t) case None => s.charities case Some(cs) => cs)
  }

  lemma {:induction false} RunIsSettled(s: State, t: seq<DispatchedAction>)
    ensures Run(s, t) == Settled(s, t)
    decreases |t|
  {
    if t != [] {
      var t', a := t[..|t| - 1], t[|t| - 1];
      assert t == t' + [a];
      RunSnoc(s, t', a);
      RunIsSettled(s, t');
    }
  }

  /** A trace of unrecognised actions leaves every state as it was; a corollary of `RunIsSettled`. */
  lemma UnrecognisedTraceIsNoOp(s: State, t: seq<DispatchedAction>)
    requires forall i :: 0 <= i < |t| ==> !Recognised(t[i])
    ensures Run(s, t) == s
  {
    RunIsSettled(s, t);
  }

  /**
   Inserting an action `c` that is not FETCH_SUCCESS at position `k` of `t`
   changes the final state only when no recognised action follows it, and then
   the final state is `c` applied to the state `t` alone leaves.
   */
  lemma InsertNonSuccess(s: State, t: seq<DispatchedAction>, k: nat, c: DispatchedAction)
    requires k <= |t|
    requires !c.FetchSuccess?
    ensures Run(s, t[..k] + [c] + t[k..])
         == if LastRecognised(t[k..]).Some? then Run(s, t) else Reducer(Run(s, t), c)
  {
    var p, u := t[..k], t[k..];
    assert t == p + u;
    assert p + [c] + u == (p + [c]) + u;
    RunAppend(s, p + [c], u);
    RunSnoc(s, p, c);
    RunAppend(s, p, u);
    var x := Run(s, p);
    RunIsSettled(Reducer(x, c), u);
    RunIsSettled(x, u);
  }
}
