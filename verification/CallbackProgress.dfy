/** Progress of the finaliser: there is no deadlock, and a `Drop` that has begun returns. */
module CallbackProgress {
  import opened CallbackQuiescence

  // ---------- without new events ----------

  function ThreadRank(t: Thread): nat {
    match t
    case Arrived(_) => 7
    case BeginLocking => 6
    case BeginLocked => 5
    case Calling => 4
    case EndLocking => 3
    case EndLocked => 2
    case EndNotifying => 1
    case Finished => 0
  }

  function ThreadRanks(threads: seq<Thread>): nat {
    if threads == [] then 0 else ThreadRanks(threads[..|threads| - 1]) + ThreadRank(threads[|threads| - 1])
  }

  function FinaliserRank(f: Finaliser): nat {
    match f
    case Running => 7
    case DisableLocking => 6
    case DisableLocked => 5
    case Removing => 4
    case WaitLocking => 3
    case WaitLocked => 2
    case Asleep => 1
    case Returned => 0
  }

  /** A thread step counts for four: a notification puts the finaliser back by two. */
  function Rank(s: State): nat { 4 * ThreadRanks(s.threads) + FinaliserRank(s.finaliser) }

  lemma {:induction false} RanksAfterMove(threads: seq<Thread>, n: nat, t: Thread)
    requires n < |threads|
    ensures ThreadRanks(threads[n := t]) == ThreadRanks(threads) - ThreadRank(threads[n]) + ThreadRank(t)
  {
    var last := |threads| - 1;
    if n == last {
      assert threads[n := t][..last] == threads[..last];
    } else {
      assert threads[n := t][..last] == threads[..last][n := t];
      RanksAfterMove(threads[..last], n, t);
    }
  }

  /** The steps that need no new event and no spurious wake-up. */
  predicate Own(a: Action) { a.Step? || a.Finalise? }

  lemma ThreadStepDescends(s: State, n: nat)
    requires Enabled(s, Step(n))
    ensures ThreadRanks(StepThread(s, n).threads) < ThreadRanks(s.threads)
    ensures FinaliserRank(StepThread(s, n).finaliser) <= FinaliserRank(s.finaliser) + 2
  {
    RanksAfterMove(s.threads, n, StepThread(s, n).threads[n]);
  }

  lemma OwnStepDescends(s: State, a: Action)
    requires Enabled(s, a) && Own(a)
    ensures Rank(Apply(s, a)) < Rank(s)
  {
    if a.Step? { ThreadStepDescends(s, a.n); }
  }

  /** Until `Drop` has returned, some thread or the finaliser can always move: no deadlock. */
  lemma SomeoneCanMove(s: State) returns (a: Action)
    requires Inv(s) && !s.finaliser.Returned?
    ensures Own(a) && Enabled(s, a)
  {
    if s.owner.HeldBy? {
      assert HoldsMutex(s.threads[s.owner.thread]);
      a := Step(s.owner.thread);
    } else if s.finaliser.Asleep? {
      var n := SomeoneIsCounted(s.threads);
      a := Step(n);
    } else {
      a := Finalise;
    }
  }

  /** A scheduler that, while `Drop` has not returned, picks some own step that can be taken. */
  ghost predicate Works(pick: State -> Action) {
    forall s :: Inv(s) && !s.finaliser.Returned? ==> Own(pick(s)) && Enabled(s, pick(s))
  }

  /**
    From every reachable moment, whatever the scheduler picks, `Drop` returns after finitely
    many steps once no further events arrive.
   */
  lemma {:induction false} DropReturns(s: State, pick: State -> Action) returns (run: seq<Action>, t: State)
    requires Inv(s) && Works(pick)
    ensures Reaches(s, run, t) && t.finaliser.Returned?
    ensures |run| <= Rank(s)
    decreases Rank(s)
  {
    if s.finaliser.Returned? {
      return [], s;
    }
    var a := pick(s);
    assert Own(a) && Enabled(s, a);
    OwnStepDescends(s, a);
    if a.Step? { StepKeepsInv(s, a.n); } else { OthersKeepInv(s, a); }
    var rest;
    rest, t := DropReturns(Apply(s, a), pick);
    run := [a] + rest;
    assert run[1..] == rest;
  }

  // ---------- fair runs ----------

  ghost predicate StepAt(st: nat -> State, act: nat -> Action, i: nat) {
    Enabled(st(i), act(i)) && st(i + 1) == Apply(st(i), act(i))
  }

  ghost predicate IsRun(st: nat -> State, act: nat -> Action) {
    st(0) == INIT && forall i: nat :: StepAt(st, act, i)
  }

  /** Nothing forces the registration to be dropped, but a `Drop` once begun goes on. */
  predicate Can(s: State, a: Action) { Enabled(s, a) && (a.Finalise? ==> !s.finaliser.Running?) }

  /** The action is taken, or is possible never again. */
  ghost predicate Settled(st: nat -> State, act: nat -> Action, a: Action, i: nat) {
    act(i) == a || forall j: nat | i <= j :: !Can(st(j), a)
  }

  ghost predicate SettledFrom(st: nat -> State, act: nat -> Action, a: Action, i: nat) {
    exists j: nat :: i <= j && Settled(st, act, a, j)
  }

  /**
    Strong fairness of every thread and of the finaliser, not of deliveries and spurious
    wake-ups: who can lock the mutex again and again does so in the end.
   */
  ghost predicate Fair(st: nat -> State, act: nat -> Action) {
    forall a: Action, i: nat | Own(a) :: SettledFrom(st, act, a, i)
  }

  lemma {:induction false} InvAt(st: nat -> State, act: nat -> Action, i: nat)
    requires IsRun(st, act)
    ensures Inv(st(i))
  {
    if i == 0 {
    } else {
      InvAt(st, act, i - 1);
      assert StepAt(st, act, i - 1);
      var s, a := st(i - 1), act(i - 1);
      if a.Step? { StepKeepsInv(s, a.n); } else { OthersKeepInv(s, a); }
    }
  }

  // ---------- who stands still ----------

  ghost predicate ThreadIs(s: State, n: nat, t: Thread) { n < |s.threads| && s.threads[n] == t }

  /** A thread stays where it is until it takes a step itself. */
  lemma {:induction false} ThreadStays(st: nat -> State, act: nat -> Action, n: nat, t: Thread, i: nat, j: nat)
    returns (k: nat)
    requires IsRun(st, act) && i <= j && ThreadIs(st(i), n, t)
    ensures i <= k <= j && ThreadIs(st(k), n, t) && (k == j || act(k) == Step(n))
    decreases j - i
  {
    if i == j || act(i) == Step(n) { return i; }
    assert StepAt(st, act, i);
    k := ThreadStays(st, act, n, t, i + 1, j);
  }

  /** The finaliser stays where it is until something moves it. */
  lemma {:induction false} FinaliserStays(st: nat -> State, act: nat -> Action, i: nat, j: nat) returns (k: nat)
    requires IsRun(st, act) && i <= j
    ensures i <= k <= j && st(k).finaliser == st(i).finaliser
    ensures k == j || st(k + 1).finaliser != st(i).finaliser
    ensures k < j && !st(i).finaliser.Asleep? ==> act(k) == Finalise
    decreases j - i
  {
    if i == j || st(i + 1).finaliser != st(i).finaliser {
      assert StepAt(st, act, i);
      return i;
    }
    k := FinaliserStays(st, act, i + 1, j);
  }

  // ---------- who moves on ----------

  predicate WaitsForMutex(t: Thread) { t.BeginLocking? || t.EndLocking? }

  /** A thread that needs no mutex takes its step. */
  lemma ThreadMoves(st: nat -> State, act: nat -> Action, n: nat, t: Thread, i: nat) returns (j: nat)
    requires IsRun(st, act) && Fair(st, act)
    requires ThreadIs(st(i), n, t) && !t.Finished? && !WaitsForMutex(t)
    ensures i <= j && ThreadIs(st(j), n, t) && act(j) == Step(n)
  {
    assert SettledFrom(st, act, Step(n), i);
    var k: nat :| i <= k && Settled(st, act, Step(n), k);
    j := ThreadStays(st, act, n, t, i, k);
    assert Can(st(k), Step(n)) ==> act(k) == Step(n);
  }

  lemma FinaliserMoves(st: nat -> State, act: nat -> Action, i: nat) returns (j: nat)
    requires IsRun(st, act) && Fair(st, act)
    requires st(i).finaliser.DisableLocked? || st(i).finaliser.Removing? || st(i).finaliser.WaitLocked?
    ensures i <= j && st(j).finaliser == st(i).finaliser && act(j) == Finalise
  {
    assert SettledFrom(st, act, Finalise, i);
    var k: nat :| i <= k && Settled(st, act, Finalise, k);
    j := FinaliserStays(st, act, i, k);
    assert Can(st(k), Finalise) ==> act(k) == Finalise;
  }

  /** Whoever holds the mutex lets go of it. */
  lemma MutexIsFreed(st: nat -> State, act: nat -> Action, i: nat) returns (j: nat)
    requires IsRun(st, act) && Fair(st, act)
    ensures i <= j && st(j).owner.Free?
  {
    InvAt(st, act, i);
    match st(i).owner
    case Free => j := i;
    case HeldByFinaliser =>
      j := FinaliserMoves(st, act, i);
      assert StepAt(st, act, j);
      j := j + 1;
    case HeldBy(n) => j := HolderLetsGo(st, act, n, i);
  }

  lemma HolderLetsGo(st: nat -> State, act: nat -> Action, n: nat, i: nat) returns (j: nat)
    requires IsRun(st, act) && Fair(st, act) && st(i).owner == HeldBy(n)
    ensures i <= j && st(j).owner.Free?
  {
    InvAt(st, act, i);
    assert HoldsMutex(st(i).threads[n]);
    j := ThreadMoves(st, act, n, st(i).threads[n], i);
    assert StepAt(st, act, j);
    j := j + 1;
    if !st(j).owner.Free? {
      assert ThreadIs(st(j), n, EndNotifying);
      j := ThreadMoves(st, act, n, EndNotifying, j);
      assert StepAt(st, act, j);
      j := j + 1;
    }
  }

  /** Every thread that is not finished takes a step, locking the mutex if it has to. */
  lemma AnyThreadMoves(st: nat -> State, act: nat -> Action, n: nat, t: Thread, i: nat) returns (j: nat)
    requires IsRun(st, act) && Fair(st, act)
    requires ThreadIs(st(i), n, t) && !t.Finished?
    ensures i <= j && ThreadIs(st(j), n, t) && act(j) == Step(n)
  {
    if !WaitsForMutex(t) {
      j := ThreadMoves(st, act, n, t, i);
    } else {
      assert SettledFrom(st, act, Step(n), i);
      var k: nat :| i <= k && Settled(st, act, Step(n), k);
      var free := MutexIsFreed(st, act, k);
      j := ThreadStays(st, act, n, t, i, free);
      if act(j) != Step(n) {
        assert Can(st(free), Step(n));
        j := ThreadStays(st, act, n, t, i, k);
      }
    }
  }

  lemma FinaliserLocks(st: nat -> State, act: nat -> Action, i: nat) returns (j: nat)
    requires IsRun(st, act) && Fair(st, act)
    requires st(i).finaliser.DisableLocking? || st(i).finaliser.WaitLocking?
    ensures i <= j && st(j).finaliser == st(i).finaliser && act(j) == Finalise
  {
    assert SettledFrom(st, act, Finalise, i);
    var k: nat :| i <= k && Settled(st, act, Finalise, k);
    var free := MutexIsFreed(st, act, k);
    j := FinaliserStays(st, act, i, free);
    if act(j) != Finalise {
      assert Can(st(free), Finalise);
      j := FinaliserStays(st, act, i, k);
    }
  }

  // ---------- callbacks run out ----------

  /** Steps a counted thread takes before it is counted no more. */
  function CountedRank(t: Thread): nat {
    match t
    case Calling => 3
    case EndLocking => 2
    case EndLocked => 1
    case _ => 0
  }

  function Remaining(threads: seq<Thread>): nat {
    if threads == [] then 0 else Remaining(threads[..|threads| - 1]) + CountedRank(threads[|threads| - 1])
  }

  lemma {:induction false} RemainingAfterMove(threads: seq<Thread>, n: nat, t: Thread)
    requires n < |threads|
    ensures Remaining(threads[n := t]) == Remaining(threads) - CountedRank(threads[n]) + CountedRank(t)
  {
    var last := |threads| - 1;
    if n == last {
      assert threads[n := t][..last] == threads[..last];
    } else {
      assert threads[n := t][..last] == threads[..last][n := t];
      RemainingAfterMove(threads[..last], n, t);
    }
  }

  lemma {:induction false} RemainingCounts(threads: seq<Thread>)
    ensures Remaining(threads) == 0 <==> Count(threads) == 0
  {
    if threads == [] {
    } else {
      RemainingCounts(threads[..|threads| - 1]);
    }
  }

  lemma ThreadStepShrinks(s: State, n: nat)
    requires Inv(s) && Enabled(s, Step(n)) && Disabled(s.finaliser)
    ensures Disabled(StepThread(s, n).finaliser)
    ensures Remaining(StepThread(s, n).threads) <= Remaining(s.threads)
    ensures Counted(s.threads[n]) ==> Remaining(StepThread(s, n).threads) < Remaining(s.threads)
  {
    RemainingAfterMove(s.threads, n, StepThread(s, n).threads[n]);
  }

  /** Once disabled, the listener lets no thread in, so that the work inside only shrinks. */
  lemma StepShrinks(s: State, a: Action)
    requires Inv(s) && Enabled(s, a) && Disabled(s.finaliser)
    ensures Disabled(Apply(s, a).finaliser)
    ensures Remaining(Apply(s, a).threads) <= Remaining(s.threads)
    ensures a.Step? && Counted(s.threads[a.n]) ==> Remaining(Apply(s, a).threads) < Remaining(s.threads)
  {
    match a
    case Step(n) => ThreadStepShrinks(s, n);
    case Deliver(matches) => assert (s.threads + [Arrived(matches)])[..|s.threads|] == s.threads;
    case _ =>
  }

  lemma {:induction false} Shrinks(st: nat -> State, act: nat -> Action, i: nat, j: nat)
    requires IsRun(st, act) && i <= j && Disabled(st(i).finaliser)
    ensures Disabled(st(j).finaliser) && Remaining(st(j).threads) <= Remaining(st(i).threads)
    decreases j - i
  {
    if i < j {
      Shrinks(st, act, i, j - 1);
      InvAt(st, act, j - 1);
      assert StepAt(st, act, j - 1);
      StepShrinks(st(j - 1), act(j - 1));
    }
  }

  lemma {:induction false} CallbacksEnd(st: nat -> State, act: nat -> Action, i: nat) returns (j: nat)
    requires IsRun(st, act) && Fair(st, act) && Disabled(st(i).finaliser)
    ensures i <= j && Disabled(st(j).finaliser) && Remaining(st(j).threads) == 0
    decreases Remaining(st(i).threads)
  {
    RemainingCounts(st(i).threads);
    if Remaining(st(i).threads) == 0 { return i; }
    var n := SomeoneIsCounted(st(i).threads);
    j := AnyThreadMoves(st, act, n, st(i).threads[n], i);
    Shrinks(st, act, i, j);
    InvAt(st, act, j);
    assert StepAt(st, act, j);
    StepShrinks(st(j), act(j));
    j := CallbacksEnd(st, act, j + 1);
  }

  // ---------- the finaliser returns ----------

  function WaitRank(f: Finaliser): nat {
    match f
    case Returned => 0
    case WaitLocked => 1
    case WaitLocking => 2
    case _ => 3
  }

  /** A sleeping finaliser without callbacks is woken by the thread that finished the last one. */
  lemma SleeperIsWoken(st: nat -> State, act: nat -> Action, i: nat) returns (j: nat)
    requires IsRun(st, act) && Fair(st, act)
    requires st(i).finaliser.Asleep? && Remaining(st(i).threads) == 0
    ensures i <= j && st(j).finaliser.WaitLocking?
  {
    InvAt(st, act, i);
    RemainingCounts(st(i).threads);
    var n := st(i).owner.thread;
    var k := ThreadMoves(st, act, n, EndNotifying, i);
    j := FinaliserStays(st, act, i, k);
    assert StepAt(st, act, j);
    j := j + 1;
  }

  lemma {:induction false} WaitEnds(st: nat -> State, act: nat -> Action, i: nat) returns (j: nat)
    requires IsRun(st, act) && Fair(st, act)
    requires Disabled(st(i).finaliser) && Remaining(st(i).threads) == 0
    ensures i <= j && st(j).finaliser.Returned?
    decreases WaitRank(st(i).finaliser)
  {
    if st(i).finaliser.Returned? { return i; }
    if st(i).finaliser.Asleep? {
      j := SleeperIsWoken(st, act, i);
    } else {
      if st(i).finaliser.WaitLocking? { j := FinaliserLocks(st, act, i); } else { j := FinaliserMoves(st, act, i); }
      Shrinks(st, act, i, j);
      InvAt(st, act, j);
      RemainingCounts(st(j).threads);
      assert StepAt(st, act, j);
      j := j + 1;
    }
    Shrinks(st, act, i, j);
    j := WaitEnds(st, act, j);
  }

  /**
    In every strongly fair run a `Drop` that has begun returns, with events arriving and
    spurious wake-ups happening for ever.
   */
  lemma DropReturnsInFairRuns(st: nat -> State, act: nat -> Action, i: nat) returns (j: nat)
    requires IsRun(st, act) && Fair(st, act) && !st(i).finaliser.Running?
    ensures i <= j && st(j).finaliser.Returned?
  {
    j := i;
    if st(j).finaliser.DisableLocking? {
      j := FinaliserLocks(st, act, j);
      assert StepAt(st, act, j);
      j := j + 1;
    }
    if st(j).finaliser.DisableLocked? {
      j := FinaliserMoves(st, act, j);
      assert StepAt(st, act, j);
      j := j + 1;
    }
    j := CallbacksEnd(st, act, j);
    j := WaitEnds(st, act, j);
  }

  // ---------- a fair run ----------

  /** The registration is dropped, then events for others keep arriving, and each is let go by. */
  function QuietAction(i: nat): Action {
    if i < 6 then Finalise else if i % 2 == 0 then Deliver(false) else Step((i - 6) / 2)
  }

  function AllFinished(n: nat): (r: seq<Thread>)
    ensures |r| == n && forall i | 0 <= i < n :: r[i] == Finished
  {
    seq(n, _ => Finished)
  }

  function QuietState(i: nat): State {
    match i
    case 0 => INIT
    case 1 => State(true, 0, Free, [], DisableLocking)
    case 2 => State(true, 0, HeldByFinaliser, [], DisableLocked)
    case 3 => State(false, 0, Free, [], Removing)
    case 4 => State(false, 0, Free, [], WaitLocking)
    case 5 => State(false, 0, HeldByFinaliser, [], WaitLocked)
    case _ =>
      State(false, 0, Free, AllFinished((i - 6) / 2) + (if i % 2 == 0 then [] else [Arrived(false)]), Returned)
  }

  lemma QuietStep(i: nat)
    ensures StepAt(QuietState, QuietAction, i)
  {
    if i >= 6 {
      var n := (i - 6) / 2;
      if i % 2 == 0 {
        assert (i + 1 - 6) / 2 == n;
        assert AllFinished(n) + [] + [Arrived(false)] == AllFinished(n) + [Arrived(false)];
      } else {
        assert (i + 1 - 6) / 2 == n + 1;
        assert (AllFinished(n) + [Arrived(false)])[n := Finished] == AllFinished(n + 1) + [];
      }
    }
  }

  lemma QuietSettles(a: Action, i: nat)
    requires Own(a)
    ensures SettledFrom(QuietState, QuietAction, a, i)
  {
    var j := if a.Step? then i + 2 * a.n + 8 else i + 6;
    forall k: nat | j <= k ensures !Can(QuietState(k), a) {
      if a.Step? {
        assert a.n < (k - 6) / 2;
        assert QuietState(k).threads[a.n] == Finished;
      }
    }
    assert Settled(QuietState, QuietAction, a, j);
  }

  ghost predicate DeliversFrom(act: nat -> Action, i: nat) { exists j: nat :: i <= j && act(j).Deliver? }

  /** There is a fair run in which the registration is dropped and events arrive for ever. */
  lemma SomeRunIsFair()
    ensures IsRun(QuietState, QuietAction) && Fair(QuietState, QuietAction)
    ensures !QuietState(1).finaliser.Running?
    ensures forall i: nat :: DeliversFrom(QuietAction, i)
  {
    forall i: nat ensures StepAt(QuietState, QuietAction, i) { QuietStep(i); }
    forall a: Action, i: nat | Own(a) ensures SettledFrom(QuietState, QuietAction, a, i) { QuietSettles(a, i); }
    forall i: nat ensures DeliversFrom(QuietAction, i) {
      assert QuietAction(2 * i + 6).Deliver?;
    }
  }
}
