/** Which events reach the user's callback, and how often. */
module CallbackDelivery {
  import opened CallbackQuiescence
  import opened CallbackProgress

  // ---------- the step that decides ----------

  /** A matching event that finds the listener enabled is inside the callback next; a late one never is. */
  lemma EnabledListenerCalls(s: State, n: nat)
    requires Enabled(s, Step(n)) && s.threads[n].BeginLocked?
    ensures s.enabled ==> StepThread(s, n).threads[n].Calling? && StepThread(s, n).inFlight == s.inFlight + 1
    ensures !s.enabled ==> StepThread(s, n).threads[n].Finished? && StepThread(s, n).inFlight == s.inFlight
  {
  }

  /** On a live registration the first event is inside the callback after three steps of its thread. */
  lemma FirstEventIsCalled()
    ensures Reaches(INIT, [Deliver(true), Step(0), Step(0), Step(0)], State(true, 1, Free, [Calling], Running))
  {
    var run := [Deliver(true), Step(0), Step(0), Step(0)];
    assert run[1..] == [Step(0), Step(0), Step(0)] && run[1..][1..] == [Step(0), Step(0)];
    assert run[1..][1..][1..] == [Step(0)] && [Step(0)][1..] == [];
    assert Apply(INIT, run[0]).threads == [Arrived(true)];
  }

  // ---------- an event's way ----------

  function Stage(t: Thread): nat {
    match t
    case Arrived(_) => 0
    case BeginLocking => 1
    case BeginLocked => 2
    case Calling => 3
    case EndLocking => 4
    case EndLocked => 5
    case EndNotifying => 6
    case Finished => 7
  }

  /** No thread ever goes back. */
  lemma {:induction false} StagesGrow(st: nat -> State, act: nat -> Action, n: nat, i: nat, j: nat)
    requires IsRun(st, act) && i <= j && n < |st(i).threads|
    ensures n < |st(j).threads| && Stage(st(i).threads[n]) <= Stage(st(j).threads[n])
    decreases j - i
  {
    if i == j {
    } else {
      StagesGrow(st, act, n, i, j - 1);
      assert StepAt(st, act, j - 1);
    }
  }

  ghost predicate InCallback(s: State, n: nat) { n < |s.threads| && s.threads[n].Calling? }

  /** The thread enters the callback at step `k`. */
  ghost predicate Enters(st: nat -> State, n: nat, k: nat) { !InCallback(st(k), n) && InCallback(st(k + 1), n) }

  /** An event for others is let go by. */
  lemma {:induction false} OthersAreLetGo(st: nat -> State, act: nat -> Action, n: nat, i: nat, j: nat)
    requires IsRun(st, act) && i <= j && ThreadIs(st(i), n, Arrived(false))
    ensures ThreadIs(st(j), n, Arrived(false)) || ThreadIs(st(j), n, Finished)
    decreases j - i
  {
    if i == j {
    } else {
      OthersAreLetGo(st, act, n, i, j - 1);
      assert StepAt(st, act, j - 1);
    }
  }

  /** An event that does not match never enters the callback. */
  lemma NotMatchingNeverCalled(st: nat -> State, act: nat -> Action, n: nat, i: nat, k: nat)
    requires IsRun(st, act) && ThreadIs(st(i), n, Arrived(false))
    ensures !InCallback(st(k), n)
  {
    if i <= k {
      OthersAreLetGo(st, act, n, i, k);
    } else if n < |st(k).threads| {
      StagesGrow(st, act, n, k, i);
    }
  }

  lemma StepsOn(st: nat -> State, act: nat -> Action, n: nat, t: Thread, i: nat) returns (j: nat)
    requires IsRun(st, act) && Fair(st, act) && ThreadIs(st(i), n, t) && !t.Finished?
    ensures i < j && act(j - 1) == Step(n) && ThreadIs(st(j - 1), n, t)
    ensures Enabled(st(j - 1), Step(n)) && st(j) == StepThread(st(j - 1), n)
  {
    j := AnyThreadMoves(st, act, n, t, i);
    assert StepAt(st, act, j);
    j := j + 1;
  }

  /** Every matching event comes to look whether the listener is enabled. */
  lemma MatchingEventLooks(st: nat -> State, act: nat -> Action, n: nat, i: nat) returns (j: nat)
    requires IsRun(st, act) && Fair(st, act) && ThreadIs(st(i), n, Arrived(true))
    ensures i < j && ThreadIs(st(j), n, BeginLocked) && act(j) == Step(n) && st(j + 1) == StepThread(st(j), n)
  {
    j := StepsOn(st, act, n, Arrived(true), i);
    j := StepsOn(st, act, n, BeginLocking, j);
    j := StepsOn(st, act, n, BeginLocked, j);
    j := j - 1;
  }

  /** A thread is inside the callback only between its look and its leaving, so it enters once at most. */
  lemma EntersOnlyAfterLook(st: nat -> State, act: nat -> Action, n: nat, j: nat, k: nat)
    requires IsRun(st, act) && ThreadIs(st(j), n, BeginLocked) && act(j) == Step(n)
    ensures Enters(st, n, k) <==> k == j && st(j).enabled
    ensures InCallback(st(k), n) ==> j < k && st(j).enabled
  {
    assert StepAt(st, act, j);
    EnabledListenerCalls(st(j), n);
    if k <= j {
      if n < |st(k).threads| { StagesGrow(st, act, n, k, j); }
      if k < j && n < |st(k + 1).threads| { StagesGrow(st, act, n, k + 1, j); }
    } else {
      StagesGrow(st, act, n, j + 1, k);
      StagesGrow(st, act, n, k, k + 1);
    }
  }

  /**
    In every strongly fair run each matching event comes to look at a moment `j`, and it enters
    the callback then, and never again, if the finaliser has not yet disabled the listener;
    otherwise it never does.
   */
  lemma MatchingEventIsCalledOnce(st: nat -> State, act: nat -> Action, n: nat, i: nat) returns (j: nat)
    requires IsRun(st, act) && Fair(st, act) && ThreadIs(st(i), n, Arrived(true))
    ensures i < j && ThreadIs(st(j), n, BeginLocked) && act(j) == Step(n)
    ensures !Disabled(st(j).finaliser) ==> forall k: nat :: Enters(st, n, k) <==> k == j
    ensures Disabled(st(j).finaliser) ==> forall k: nat :: !InCallback(st(k), n)
  {
    j := MatchingEventLooks(st, act, n, i);
    InvAt(st, act, j);
    forall k: nat
      ensures Enters(st, n, k) <==> k == j && st(j).enabled
      ensures InCallback(st(k), n) ==> st(j).enabled
    {
      EntersOnlyAfterLook(st, act, n, j, k);
    }
  }

  /** While the registration lives, every matching event enters the callback exactly once, and leaves it. */
  lemma LiveRegistrationHearsAll(st: nat -> State, act: nat -> Action, n: nat, i: nat) returns (j: nat, last: nat)
    requires IsRun(st, act) && Fair(st, act) && ThreadIs(st(i), n, Arrived(true))
    requires forall k: nat :: !Disabled(st(k).finaliser)
    ensures forall k: nat :: Enters(st, n, k) <==> k == j
    ensures j < last && forall k: nat | last <= k :: !InCallback(st(k), n)
  {
    j := MatchingEventIsCalledOnce(st, act, n, i);
    assert Enters(st, n, j);
    last := StepsOn(st, act, n, Calling, j + 1);
    forall k: nat | last <= k ensures !InCallback(st(k), n) { StagesGrow(st, act, n, last, k); }
  }
}
