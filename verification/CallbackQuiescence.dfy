/** Event threads race one finaliser through a mutex, a counter and a condition variable. */
module CallbackQuiescence {
  /** One delivery of an event to the listener. `matches` is the test of scope and gid. */
  datatype Thread =
    | Arrived(matches: bool)
    | BeginLocking            // begin_callback waits for the mutex
    | BeginLocked             // holds it and looks at `enabled`
    | Calling                 // inside the user's callback
    | EndLocking              // the guard is dropped: end_callback waits for the mutex
    | EndLocked               // holds it and counts down
    | EndNotifying            // the count reached zero: about to notify, still holding it
    | Finished

  /** `Drop` of the registration: disable, remove the listener, wait for the callbacks. */
  datatype Finaliser =
    | Running                 // the registration is alive
    | DisableLocking
    | DisableLocked
    | Removing
    | WaitLocking
    | WaitLocked              // holds the mutex and looks at the counter
    | Asleep                  // in Condvar::wait, the mutex released
    | Returned

  datatype Owner = Free | HeldBy(thread: nat) | HeldByFinaliser

  datatype State = State(
    enabled: bool,
    inFlight: int,
    owner: Owner,
    threads: seq<Thread>,
    finaliser: Finaliser)

  const INIT := State(true, 0, Free, [], Running)

  /**
    One step per lock, unlock, wait and notification; the callback may return at any time.
    `Deliver` is a new event, `Finalise` the next step of `Drop`, `Wake` a spurious wake-up.
    Dropping the registration begins with `Finalise` in state `Running`.
   */
  datatype Action = Deliver(matches: bool) | Step(n: nat) | Finalise | Wake

  predicate Enabled(s: State, a: Action) {
    match a
    case Deliver(_) => true
    case Step(n) =>
      n < |s.threads| && !s.threads[n].Finished? &&
      (s.threads[n].BeginLocking? || s.threads[n].EndLocking? ==> s.owner.Free?)
    case Finalise =>
      (match s.finaliser
       case DisableLocking => s.owner.Free?
       case WaitLocking => s.owner.Free?
       case Asleep => false
       case Returned => false
       case _ => true)
    case Wake => s.finaliser.Asleep?
  }

  function Move(s: State, n: nat, t: Thread): State
    requires n < |s.threads|
  {
    s.(threads := s.threads[n := t])
  }

  function StepThread(s: State, n: nat): State
    requires Enabled(s, Step(n))
  {
    match s.threads[n]
    case Arrived(matches) => Move(s, n, if matches then BeginLocking else Finished)
    case BeginLocking => Move(s.(owner := HeldBy(n)), n, BeginLocked)
    case BeginLocked =>
      if s.enabled then Move(s.(inFlight := s.inFlight + 1, owner := Free), n, Calling)
      else Move(s.(owner := Free), n, Finished)
    case Calling => Move(s, n, EndLocking)
    case EndLocking => Move(s.(owner := HeldBy(n)), n, EndLocked)
    case EndLocked =>
      if s.inFlight - 1 == 0 then Move(s.(inFlight := s.inFlight - 1), n, EndNotifying)
      else Move(s.(inFlight := s.inFlight - 1, owner := Free), n, Finished)
    case EndNotifying =>
      Move(s.(owner := Free, finaliser := if s.finaliser.Asleep? then WaitLocking else s.finaliser), n, Finished)
  }

  function StepFinaliser(s: State): State
    requires Enabled(s, Finalise)
  {
    match s.finaliser
    case Running => s.(finaliser := DisableLocking)
    case DisableLocking => s.(owner := HeldByFinaliser, finaliser := DisableLocked)
    case DisableLocked => s.(enabled := false, owner := Free, finaliser := Removing)
    case Removing => s.(finaliser := WaitLocking)
    case WaitLocking => s.(owner := HeldByFinaliser, finaliser := WaitLocked)
    case WaitLocked => s.(owner := Free, finaliser := if s.inFlight != 0 then Asleep else Returned)
  }

  function Apply(s: State, a: Action): State
    requires Enabled(s, a)
  {
    match a
    case Deliver(matches) => s.(threads := s.threads + [Arrived(matches)])
    case Step(n) => StepThread(s, n)
    case Finalise => StepFinaliser(s)
    case Wake => s.(finaliser := WaitLocking)
  }

  ghost predicate Reaches(s: State, run: seq<Action>, t: State)
    decreases |run|
  {
    if run == [] then s == t else Enabled(s, run[0]) && Reaches(Apply(s, run[0]), run[1..], t)
  }

  // ---------- counting ----------

  /** Threads between the increment and the decrement of the counter. */
  predicate Counted(t: Thread) { t.Calling? || t.EndLocking? || t.EndLocked? }

  function Count(threads: seq<Thread>): nat {
    if threads == [] then 0
    else Count(threads[..|threads| - 1]) + if Counted(threads[|threads| - 1]) then 1 else 0
  }

  lemma {:induction false} CountAfterMove(threads: seq<Thread>, n: nat, t: Thread)
    requires n < |threads|
    ensures Count(threads[n := t])
            == Count(threads) - (if Counted(threads[n]) then 1 else 0) + (if Counted(t) then 1 else 0)
  {
    var last := |threads| - 1;
    if n == last {
      assert threads[n := t][..last] == threads[..last];
    } else {
      assert threads[n := t][..last] == threads[..last][n := t];
      CountAfterMove(threads[..last], n, t);
    }
  }

  lemma {:induction false} CountedIsCounted(threads: seq<Thread>, n: nat)
    requires n < |threads| && Counted(threads[n])
    ensures 0 < Count(threads)
  {
    if n < |threads| - 1 { CountedIsCounted(threads[..|threads| - 1], n); }
  }

  lemma {:induction false} SomeoneIsCounted(threads: seq<Thread>) returns (n: nat)
    requires 0 < Count(threads)
    ensures n < |threads| && Counted(threads[n])
  {
    n := |threads| - 1;
    if !Counted(threads[n]) { n := SomeoneIsCounted(threads[..n]); }
  }

  // ---------- the invariant ----------

  predicate HoldsMutex(t: Thread) { t.BeginLocked? || t.EndLocked? || t.EndNotifying? }

  /** The finaliser has written `enabled = false`. */
  predicate Disabled(f: Finaliser) {
    f.Removing? || f.WaitLocking? || f.WaitLocked? || f.Asleep? || f.Returned?
  }

  ghost predicate MutexOwner(s: State) {
    && (forall n | 0 <= n < |s.threads| :: HoldsMutex(s.threads[n]) <==> s.owner == HeldBy(n))
    && (s.owner.HeldBy? ==> s.owner.thread < |s.threads|)
    && (s.owner.HeldByFinaliser? <==> s.finaliser.DisableLocked? || s.finaliser.WaitLocked?)
  }

  ghost predicate Inv(s: State) {
    && MutexOwner(s)
    && s.inFlight == Count(s.threads)
    && (s.enabled <==> !Disabled(s.finaliser))
    && (s.finaliser.Asleep? ==> 0 < s.inFlight || (s.owner.HeldBy? && s.threads[s.owner.thread].EndNotifying?))
    && (s.finaliser.Returned? ==> s.inFlight == 0)
  }

  lemma StepKeepsCount(s: State, n: nat)
    requires Inv(s) && Enabled(s, Step(n))
    ensures StepThread(s, n).inFlight == Count(StepThread(s, n).threads)
  {
    CountAfterMove(s.threads, n, StepThread(s, n).threads[n]);
  }

  lemma StepKeepsInv(s: State, n: nat)
    requires Inv(s) && Enabled(s, Step(n))
    ensures Inv(StepThread(s, n))
  {
    StepKeepsCount(s, n);
    assert HoldsMutex(s.threads[n]) <==> s.owner == HeldBy(n);
    if Counted(s.threads[n]) { CountedIsCounted(s.threads, n); }
  }

  lemma OthersKeepInv(s: State, a: Action)
    requires Inv(s) && Enabled(s, a) && !a.Step?
    ensures Inv(Apply(s, a))
  {
    if a.Deliver? {
      assert (s.threads + [Arrived(a.matches)])[..|s.threads|] == s.threads;
    }
  }

  lemma {:induction false} RunKeepsInv(s: State, run: seq<Action>, t: State)
    requires Inv(s) && Reaches(s, run, t)
    ensures Inv(t)
    decreases |run|
  {
    if run == [] {
    } else {
      if run[0].Step? { StepKeepsInv(s, run[0].n); } else { OthersKeepInv(s, run[0]); }
      RunKeepsInv(Apply(s, run[0]), run[1..], t);
    }
  }

  // ---------- safety ----------

  /**
    In every interleaving the counter is the number of threads between `begin_callback` and
    the decrement of `end_callback`, so it never underflows, and a finaliser that sleeps has
    a callback to wait for or its notification is being sent.
   */
  lemma CounterIsExact(run: seq<Action>, s: State)
    requires Reaches(INIT, run, s)
    ensures s.inFlight == Count(s.threads)
    ensures forall n | 0 <= n < |s.threads| && s.threads[n].EndLocked? :: 1 <= s.inFlight
    ensures s.finaliser.Asleep? ==>
              0 < s.inFlight || exists n | 0 <= n < |s.threads| :: s.threads[n].EndNotifying?
  {
    RunKeepsInv(INIT, run, s);
    forall n | 0 <= n < |s.threads| && s.threads[n].EndLocked? ensures 1 <= s.inFlight {
      CountedIsCounted(s.threads, n);
    }
  }

  lemma {:induction false} ReturnedIsFinal(s: State, run: seq<Action>, t: State)
    requires s.finaliser.Returned? && Reaches(s, run, t)
    ensures t.finaliser.Returned?
    decreases |run|
  {
    if run == [] {
    } else {
      ReturnedIsFinal(Apply(s, run[0]), run[1..], t);
    }
  }

  /**
    Once `Drop` has returned no thread is inside the callback, and none ever will be, however
    many events are still delivered: the caller may free what the callback uses.
   */
  lemma NoCallbackAfterDrop(before: seq<Action>, s: State, after: seq<Action>, t: State)
    requires Reaches(INIT, before, s) && s.finaliser.Returned?
    requires Reaches(s, after, t)
    ensures forall n | 0 <= n < |t.threads| :: !Counted(t.threads[n])
  {
    RunKeepsInv(INIT, before, s);
    RunKeepsInv(s, after, t);
    ReturnedIsFinal(s, after, t);
    forall n | 0 <= n < |t.threads| ensures !Counted(t.threads[n]) {
      if Counted(t.threads[n]) { CountedIsCounted(t.threads, n); }
    }
  }
}
