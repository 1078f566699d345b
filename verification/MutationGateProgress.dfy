/** Progress of the mutation gate over infinite runs, under weak fairness. */
module MutationGateProgress {
  import opened Wrappers
  import opened MutationGate

  ghost predicate StepAt(st: nat -> State, act: nat -> Action, i: nat) {
    Enabled(st(i), act(i)) && st(i + 1) == Apply(st(i), act(i))
  }

  ghost predicate IsRun(st: nat -> State, act: nat -> Action) {
    st(0) == INIT && forall i: nat :: StepAt(st, act, i)
  }

  ghost predicate Scheduled(st: nat -> State, act: nat -> Action, n: nat, i: nat) {
    act(i) == Step(n) || !CanStep(st(i), n)
  }

  ghost predicate ScheduledFrom(st: nat -> State, act: nat -> Action, n: nat, i: nat) {
    exists j: nat :: i <= j && Scheduled(st, act, n, j)
  }

  /**
    Weak fairness: no request stays enabled for ever without taking a step. Bodies are finite
    because every body carries a finite `work`.
   */
  ghost predicate Fair(st: nat -> State, act: nat -> Action) {
    forall n: nat, i: nat :: ScheduledFrom(st, act, n, i)
  }

  /** Some request up to `n` was dropped before it got its turn. */
  ghost predicate Abandoned(s: State, n: nat) {
    exists m | 0 <= m <= n && m < |s.requests| :: s.requests[m].phase.Cancelled?
  }

  ghost predicate HasServed(s: State, n: nat) { n < s.served }

  // ---------- the ranking ----------

  function OwnRank(r: Request): nat {
    match r.phase
    case Sleeping(_) => r.work + 9
    case Arming => r.work + 8
    case FirstLoad(_) => r.work + 7
    case Locking(_) => r.work + 6
    case SecondLoad(_) => r.work + 5
    case Body(work) => work + 2
    case Swapping => 1
    case _ => 0
  }

  function TailRank(p: Phase): nat {
    if p.Notifying? then 2 else if p.Releasing? then 1 else 0
  }

  /** Steps left before the request whose turn it is hands the turn on. */
  function Rank(s: State): nat
    requires s.served < |s.requests|
  {
    OwnRank(s.requests[s.served]) + if s.served == 0 then 0 else TailRank(s.requests[s.served - 1].phase)
  }

  ghost predicate Descends(s: State, t: State) {
    s.served < t.served ||
    (s.served == t.served < |s.requests| <= |t.requests| && Rank(t) < Rank(s))
  }

  /** Nothing that decides the next step of the front has changed. */
  ghost predicate SameFront(s: State, t: State)
    requires s.served < |s.requests|
  {
    && s.served == t.served && |s.requests| <= |t.requests|
    && s.gate == t.gate && s.generation == t.generation
    && s.requests[s.served] == t.requests[s.served]
    && (0 < s.served ==> s.requests[s.served - 1] == t.requests[s.served - 1])
  }

  /** The request that must move next: the gate's holder, or the one whose turn it is. */
  function Front(s: State): nat { if s.gate.Some? then s.gate.value else s.served }

  lemma FrontCanStep(s: State)
    requires Inv(s) && s.served < |s.requests| && !s.requests[s.served].phase.Cancelled?
    ensures CanStep(s, Front(s))
    ensures Front(s) == s.served || Front(s) + 1 == s.served
  {
    var h := Front(s);
    assert HoldsGate(s.requests[h].phase) <==> s.gate == Some(h);
    assert FitsTurn(s.requests[h].phase, h, s.served);
    assert FitsTurn(s.requests[s.served].phase, s.served, s.served);
    if s.gate.None? && 0 < s.served {
      assert HoldsGate(s.requests[s.served - 1].phase) <==> s.gate == Some(s.served - 1);
    }
  }

  /** A step of the front's two requests always brings the hand-over nearer. */
  lemma FrontStepDescends(s: State, n: nat)
    requires Inv(s) && s.served < |s.requests| && CanStep(s, n)
    requires n == s.served || n + 1 == s.served
    ensures Descends(s, TakeStep(s, n))
  {
    assert FitsTurn(s.requests[n].phase, n, s.served);
    var p := s.requests[n].phase;
    if p.FirstLoad? || p.SecondLoad? { TurnMatches(s, n); }
  }

  /** No step of anyone else sets the front back. */
  lemma NobodyHinders(s: State, a: Action)
    requires Inv(s) && s.served < |s.requests| && Enabled(s, a)
    ensures
      var t := Apply(s, a);
      Descends(s, t) || SameFront(s, t) || (s.served == t.served && t.requests[t.served].phase.Cancelled?)
  {
    match a
    case Step(n) =>
      assert FitsTurn(s.requests[n].phase, n, s.served);
      if n == s.served || n + 1 == s.served {
        FrontStepDescends(s, n);
      } else {
        assert HoldsGate(s.requests[n].phase) <==> s.gate == Some(n);
        if s.requests[n].phase.FirstLoad? { TurnMatches(s, n); }
      }
    case Cancel(n) =>
      assert FitsTurn(s.requests[n].phase, n, s.served);
    case _ =>
  }

  // ---------- facts about runs ----------

  lemma {:induction false} InvAt(st: nat -> State, act: nat -> Action, i: nat)
    requires IsRun(st, act)
    ensures Inv(st(i))
  {
    if i == 0 {
    } else {
      InvAt(st, act, i - 1);
      assert StepAt(st, act, i - 1);
      var s := st(i - 1);
      match act(i - 1)
      case Reserve(work) => ReserveKeepsInv(s, work);
      case Step(n) => StepKeepsInv(s, n);
      case Cancel(n) => CancelKeepsInv(s, n);
      case Idle =>
    }
  }

  /** Requests never disappear, turns are never taken back, a dropped waiter stays dropped. */
  lemma {:induction false} Monotone(st: nat -> State, act: nat -> Action, i: nat, j: nat)
    requires IsRun(st, act) && i <= j
    ensures |st(i).requests| <= |st(j).requests| && st(i).served <= st(j).served
    ensures forall m | 0 <= m < |st(i).requests| ::
              st(i).requests[m].phase.Cancelled? ==> st(j).requests[m].phase.Cancelled?
    decreases j - i
  {
    if i < j {
      Monotone(st, act, i, j - 1);
      assert StepAt(st, act, j - 1);
    }
  }

  // ---------- progress ----------

  /** Between `i` and `j` either the rank went down at some point or the front stood still. */
  lemma {:induction false} FrontUntil(st: nat -> State, act: nat -> Action, i: nat, j: nat) returns (k: nat)
    requires IsRun(st, act) && i <= j
    requires st(i).served < |st(i).requests|
    requires forall m: nat :: !Abandoned(st(m), st(i).served)
    ensures i <= k <= j && (Descends(st(i), st(k)) || (k == j && SameFront(st(i), st(j))))
    decreases j - i
  {
    if i == j { return j; }
    k := FrontUntil(st, act, i, j - 1);
    if Descends(st(i), st(k)) { return; }
    InvAt(st, act, j - 1);
    assert StepAt(st, act, j - 1);
    NobodyHinders(st(j - 1), act(j - 1));
    assert !Abandoned(st(j), st(i).served);
    k := j;
  }

  /** A front that stood still until it was scheduled then takes its step. */
  lemma FrontTakesStep(st: nat -> State, act: nat -> Action, i: nat, stop: nat)
    requires IsRun(st, act) && st(i).served < |st(i).requests| && SameFront(st(i), st(stop))
    requires CanStep(st(i), Front(st(i))) && Scheduled(st, act, Front(st(i)), stop)
    requires Front(st(i)) == st(i).served || Front(st(i)) + 1 == st(i).served
    ensures Descends(st(i), st(stop + 1))
  {
    InvAt(st, act, stop);
    assert StepAt(st, act, stop);
    FrontStepDescends(st(stop), Front(st(i)));
    assert Rank(st(stop)) == Rank(st(i));
  }

  lemma {:induction false} TurnIsHandedOn(st: nat -> State, act: nat -> Action, i: nat) returns (j: nat)
    requires IsRun(st, act) && Fair(st, act)
    requires st(i).served < |st(i).requests|
    requires forall m: nat :: !Abandoned(st(m), st(i).served)
    ensures st(i).served < st(j).served
    decreases Rank(st(i))
  {
    var s := st(i);
    InvAt(st, act, i);
    assert !Abandoned(st(i), s.served);
    FrontCanStep(s);
    var n := Front(s);
    assert ScheduledFrom(st, act, n, i);
    var stop: nat :| i <= stop && Scheduled(st, act, n, stop);
    j := FrontUntil(st, act, i, stop);
    if !Descends(s, st(j)) {
      FrontTakesStep(st, act, i, stop);
      j := stop + 1;
    }
    if st(j).served == s.served {
      j := TurnIsHandedOn(st, act, j);
    }
  }

  lemma {:induction false} EventuallyServed(st: nat -> State, act: nat -> Action, n: nat, i: nat) returns (j: nat)
    requires IsRun(st, act) && Fair(st, act)
    requires n < |st(i).requests|
    requires forall m: nat :: !Abandoned(st(m), n)
    ensures HasServed(st(j), n)
    decreases n - st(i).served
  {
    j := i;
    if st(i).served <= n {
      forall m: nat ensures !Abandoned(st(m), st(i).served) {
        assert !Abandoned(st(m), n);
      }
      j := TurnIsHandedOn(st, act, i);
      if st(j).served <= n {
        if j < i { Monotone(st, act, j, i); }
        Monotone(st, act, i, j);
        j := EventuallyServed(st, act, n, j);
      }
    }
  }

  /** A ticket lost by a dropped waiter stops the gate: no later request ever gets its turn. */
  lemma LostTicketBlocks(st: nat -> State, act: nat -> Action, i: nat, m: nat, j: nat)
    requires IsRun(st, act)
    requires m < |st(i).requests| && st(i).requests[m].phase.Cancelled?
    ensures st(j).served <= m
    ensures forall n | m < n < |st(j).requests| :: !RunsBody(st(j).requests[n].phase)
  {
    if i <= j { Monotone(st, act, i, j); } else { Monotone(st, act, j, i); }
    InvAt(st, act, i);
    InvAt(st, act, j);
    assert FitsTurn(st(i).requests[m].phase, m, st(i).served);
    if i <= j { assert FitsTurn(st(j).requests[m].phase, m, st(j).served); }
    forall n | m < n < |st(j).requests| ensures !RunsBody(st(j).requests[n].phase) {
      assert FitsTurn(st(j).requests[n].phase, n, st(j).served);
    }
  }

  /**
    The exact condition for progress. In every fair run a reserved ticket is eventually
    served if and only if no request up to it is ever dropped while waiting.
   */
  lemma ServedIffNotAbandoned(st: nat -> State, act: nat -> Action, n: nat, i: nat)
    requires IsRun(st, act) && Fair(st, act)
    requires n < |st(i).requests|
    ensures (exists j: nat :: HasServed(st(j), n)) <==> (forall j: nat :: !Abandoned(st(j), n))
  {
    if forall j: nat :: !Abandoned(st(j), n) {
      var j := EventuallyServed(st, act, n, i);
      assert HasServed(st(j), n);
    } else {
      var k: nat :| Abandoned(st(k), n);
      var m :| 0 <= m <= n && m < |st(k).requests| && st(k).requests[m].phase.Cancelled?;
      forall j: nat ensures !HasServed(st(j), n) {
        LostTicketBlocks(st, act, k, m, j);
      }
    }
  }

  // ---------- a ticket that is never served ----------

  /** Two requests arrive; the first is dropped while it waits for the gate, the second goes to sleep. */
  const ABANDONED_RUN: seq<Action> := [Reserve(0), Step(0), Step(0), Cancel(0), Reserve(0), Step(1), Step(1)]

  function AbandonedAction(i: nat): Action { if i < |ABANDONED_RUN| then ABANDONED_RUN[i] else Idle }

  function AbandonedState(i: nat): State
  {
    if i == 0 then INIT
    else
      var s := AbandonedState(i - 1);
      if Enabled(s, AbandonedAction(i - 1)) then Apply(s, AbandonedAction(i - 1)) else s
  }

  function Stuck(): State {
    State(2, 0, 0, None, [Request(Cancelled, 0), Request(Sleeping(0), 0)], 0, [])
  }

  lemma AbandonedSteps()
    ensures forall i: nat | i < |ABANDONED_RUN| :: StepAt(AbandonedState, AbandonedAction, i)
    ensures AbandonedState(|ABANDONED_RUN|) == Stuck()
  {
    assert AbandonedState(1) == State(1, 0, 0, None, [Request(Arming, 0)], 0, []);
    assert AbandonedState(2) == State(1, 0, 0, None, [Request(FirstLoad(0), 0)], 0, []);
    assert AbandonedState(3) == State(1, 0, 0, None, [Request(Locking(0), 0)], 0, []);
    assert AbandonedState(4) == State(1, 0, 0, None, [Request(Cancelled, 0)], 0, []);
    assert AbandonedState(5) == State(2, 0, 0, None, [Request(Cancelled, 0), Request(Arming, 0)], 0, []);
    assert AbandonedState(6) == State(2, 0, 0, None, [Request(Cancelled, 0), Request(FirstLoad(0), 0)], 0, []);
  }

  lemma {:induction false} StaysStuck(i: nat)
    requires |ABANDONED_RUN| <= i
    ensures AbandonedState(i) == Stuck()
  {
    if i == |ABANDONED_RUN| {
      AbandonedSteps();
    } else {
      StaysStuck(i - 1);
    }
  }

  lemma StuckStep(i: nat)
    requires |ABANDONED_RUN| <= i
    ensures StepAt(AbandonedState, AbandonedAction, i)
    ensures forall n: nat :: Scheduled(AbandonedState, AbandonedAction, n, i)
  {
    StaysStuck(i);
    StaysStuck(i + 1);
  }

  lemma AbandonedIsRun()
    ensures IsRun(AbandonedState, AbandonedAction)
  {
    forall i: nat ensures StepAt(AbandonedState, AbandonedAction, i) {
      if i < |ABANDONED_RUN| { AbandonedSteps(); } else { StuckStep(i); }
    }
  }

  lemma AbandonedIsFair()
    ensures Fair(AbandonedState, AbandonedAction)
  {
    forall n: nat, i: nat ensures ScheduledFrom(AbandonedState, AbandonedAction, n, i) {
      var j := i + |ABANDONED_RUN|;
      StuckStep(j);
      assert Scheduled(AbandonedState, AbandonedAction, n, j);
    }
  }

  /** A fair run in which the second ticket is reserved and never served, because the first was lost. */
  lemma SomeTicketIsNeverServed()
    ensures IsRun(AbandonedState, AbandonedAction) && Fair(AbandonedState, AbandonedAction)
    ensures exists i: nat :: 1 < |AbandonedState(i).requests|
    ensures forall j: nat :: !HasServed(AbandonedState(j), 1)
  {
    var end := |ABANDONED_RUN|;
    AbandonedIsRun();
    AbandonedIsFair();
    StaysStuck(end);
    assert 1 < |AbandonedState(end).requests|;
    forall j: nat ensures !HasServed(AbandonedState(j), 1) {
      LostTicketBlocks(AbandonedState, AbandonedAction, end, 0, j);
    }
  }

  /** At no moment does a waiter whose turn has come sleep without its wake-up on the way. */
  lemma NoWakeupIsLost(run: seq<Action>, s: State, n: nat)
    requires Reaches(INIT, run, s)
    requires n < |s.requests| && s.turn == Ticket(n)
    requires s.requests[n].phase.Sleeping?
    ensures s.requests[n].phase.armed < s.generation
            || (0 < n && s.requests[n - 1].phase.Notifying? && CanStep(s, n - 1))
  {
    RunKeepsInv(INIT, run, s);
    assert FitsTurn(s.requests[n].phase, n, s.served);
    TicketNamesTurn(s.served, n);
    assert ArmedBy(s.requests[n].phase, s.generation);
  }
}
