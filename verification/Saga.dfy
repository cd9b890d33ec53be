/**
 * The saga orchestrator over an arbitrary list of steps: forward in order, and on a failure back
 * through a stack of the completed ones.
 */
module Saga {

  /** A call returns or throws; either way it may have changed what it reaches. */
  datatype Outcome<S> = Done(state: S) | Threw(state: S)
  datatype Step<!S> = Step(execute: S -> Outcome<S>, compensate: S -> Outcome<S>)
  datatype Action = Executed(k: nat) | Failed(k: nat) | Compensated(k: nat)

  // ----- Specification -----

  /** The first k steps, run in order. */
  function After<S>(steps: seq<Step<S>>, s: S, k: nat): Outcome<S>
    requires k <= |steps|
  {
    if k == 0 then Done(s)
    else match After(steps, s, k - 1)
      case Threw(t) => Threw(t)
      case Done(t) => steps[k - 1].execute(t)
  }

  /** Compensation of steps k-1 down to 0; one that throws does not stop the others. */
  function Undo<S>(steps: seq<Step<S>>, s: S, k: nat): S
    requires k <= |steps|
  {
    if k == 0 then s else Undo(steps, steps[k - 1].compensate(s).state, k - 1)
  }

  function Forward(n: nat): seq<Action> {
    seq(n, i requires 0 <= i => Executed(i))
  }

  function Backward(n: nat): seq<Action> {
    seq(n, i requires 0 <= i < n => Compensated(n - 1 - i))
  }

  function UpTo(n: nat): seq<nat> {
    seq(n, i requires 0 <= i => i)
  }

  lemma ForwardMore(n: nat)
    ensures Forward(n + 1) == Forward(n) + [Executed(n)]
    ensures UpTo(n + 1) == UpTo(n) + [n]
  {}

  /** The state in which a run that completed k steps fails: in the next step, or announcing the result. */
  function FailedIn<S>(steps: seq<Step<S>>, s: S, k: nat): S
    requires k <= |steps|
  {
    if k < |steps| then After(steps, s, k + 1).state else After(steps, s, k).state
  }

  lemma BackwardHead(n: nat)
    requires n > 0
    ensures Backward(n) == [Compensated(n - 1)] + Backward(n - 1)
  {}

  class OrderSagaOrchestrator<S(!new)> {
    /** The saga context, with all the stores its steps reach. */
    var state: S
    /** Every call made, in order. */
    var trace: seq<Action>

    constructor (s: S)
      ensures state == s && trace == []
    {
      state := s;
      trace := [];
    }

    /**
     * Either every step and the final event succeed, or exactly the steps completed before the
     * failure are compensated, once each and last first, whether or not compensations throw.
     */
    method Execute(steps: seq<Step<S>>, emitFails: bool) returns (ok: bool, completed: nat)
      modifies this
      ensures completed <= |steps| && After(steps, old(state), completed).Done?
      ensures completed < |steps| ==> After(steps, old(state), completed + 1).Threw?
      ensures ok <==> completed == |steps| && !emitFails
      ensures ok ==> state == After(steps, old(state), completed).state
      ensures ok ==> trace == old(trace) + Forward(completed)
      ensures !ok ==> state == Undo(steps, FailedIn(steps, old(state), completed), completed)
      ensures !ok ==> trace == old(trace) + Forward(completed) + [Failed(completed)] + Backward(completed)
    {
      ghost var s0, t0 := state, trace;
      var executedSteps: seq<nat> := [];
      var failed := false;
      completed := 0;
      while completed < |steps| && !failed
        invariant completed <= |steps|
        invariant executedSteps == UpTo(completed)
        invariant After(steps, s0, completed).Done?
        invariant !failed ==> state == After(steps, s0, completed).state && trace == t0 + Forward(completed)
        invariant failed ==>
                    && completed < |steps| && After(steps, s0, completed + 1) == Threw(state)
                    && FailedIn(steps, s0, completed) == state
                    && trace == t0 + Forward(completed) + [Failed(completed)]
        decreases |steps| - completed, !failed
      {
        var outcome := steps[completed].execute(state);
        state := outcome.state;
        if outcome.Threw? {
          trace := trace + [Failed(completed)];
          failed := true;
        } else {
          trace := trace + [Executed(completed)];
          ForwardMore(completed);
          executedSteps := executedSteps + [completed];
          completed := completed + 1;
        }
      }
      if !failed && emitFails {
        trace := trace + [Failed(completed)];
        failed := true;
      }
      if failed {
        Rollback(steps, executedSteps);
      }
      ok := !failed;
    }

    method Rollback(steps: seq<Step<S>>, executed: seq<nat>)
      requires |executed| <= |steps| && executed == UpTo(|executed|)
      modifies this
      ensures state == Undo(steps, old(state), |executed|)
      ensures trace == old(trace) + Backward(|executed|)
    {
      ghost var s0, t0 := state, trace;
      var executedSteps := executed;
      while |executedSteps| > 0
        invariant |executedSteps| <= |executed|
        invariant executedSteps == UpTo(|executedSteps|)
        invariant Undo(steps, state, |executedSteps|) == Undo(steps, s0, |executed|)
        invariant trace + Backward(|executedSteps|) == t0 + Backward(|executed|)
        decreases |executedSteps|
      {
        ghost var n := |executedSteps| - 1;
        var top := executedSteps[|executedSteps| - 1];
        executedSteps := executedSteps[..|executedSteps| - 1];
        state := steps[top].compensate(state).state;
        assert trace + Backward(n + 1) == trace + [Compensated(top)] + Backward(n) by { BackwardHead(n + 1); }
        trace := trace + [Compensated(top)];
      }
    }
  }

  // ----- What a rollback restores -----

  /** What holds of the state before step i carries over to the state after it. */
  ghost predicate Establishes<S(!new)>(step: Step<S>, i: nat, inv: (nat, S) -> bool) {
    forall a :: inv(i, a) && step.execute(a).Done? ==> inv(i + 1, step.execute(a).state)
  }

  /** Compensating from any state as good as the one after step i leads to one as good as the one before it. */
  ghost predicate LeftInverse<S(!new)>(step: Step<S>, i: nat, inv: (nat, S) -> bool, asGood: (nat, S, S) -> bool) {
    forall a, b :: inv(i, a) && step.execute(a).Done? && asGood(i + 1, b, step.execute(a).state) ==>
      asGood(i, step.compensate(b).state, a)
  }

  lemma {:induction false} ReachedStatesAreGood<S(!new)>(steps: seq<Step<S>>, s: S, k: nat, inv: (nat, S) -> bool)
    requires k <= |steps| && inv(0, s) && After(steps, s, k).Done?
    requires forall i | 0 <= i < |steps| :: Establishes(steps[i], i, inv)
    ensures inv(k, After(steps, s, k).state)
  {
    if k > 0 {
      ReachedStatesAreGood(steps, s, k - 1, inv);
      assert Establishes(steps[k - 1], k - 1, inv);
    }
  }

  /** If every compensation is a left inverse of its step, rolling back k steps is as good as never starting. */
  lemma {:induction false} RollbackRestores<S(!new)>(steps: seq<Step<S>>, s: S, t: S, k: nat, inv: (nat, S) -> bool,
                                                     asGood: (nat, S, S) -> bool)
    requires k <= |steps| && inv(0, s) && After(steps, s, k).Done?
    requires forall i | 0 <= i < |steps| :: Establishes(steps[i], i, inv)
    requires forall i | 0 <= i < |steps| :: LeftInverse(steps[i], i, inv, asGood)
    requires asGood(k, t, After(steps, s, k).state)
    ensures asGood(0, Undo(steps, t, k), s)
  {
    if k > 0 {
      var before := After(steps, s, k - 1).state;
      ReachedStatesAreGood(steps, s, k - 1, inv);
      assert LeftInverse(steps[k - 1], k - 1, inv, asGood);
      RollbackRestores(steps, s, steps[k - 1].compensate(t).state, k - 1, inv, asGood);
    }
  }
}
