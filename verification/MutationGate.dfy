/** The mutation gate of the RPC engine: two atomics, a `Notify` and a mutex. */
module MutationGate {
  import opened Collections
  import opened Wrappers

  /** Both atomics, `mutation_ticket` and `mutation_turn`, are 64-bit and wrap around. */
  const U64: nat := 0x1_0000_0000_0000_0000

  /** Where a request stands. `armed` is the generation its `Notified` was created in. */
  datatype Phase =
    | Arming                   // about to create the Notified
    | FirstLoad(armed: nat)    // about to load the turn without the gate
    | Locking(armed: nat)      // waiting for the gate
    | SecondLoad(armed: nat)   // holds the gate, about to load the turn again
    | Unlocking(armed: nat)    // the second load disagreed, the gate guard is dropped
    | Sleeping(armed: nat)     // awaits its Notified
    | Body(work: nat)          // holds the turn and has `work` more steps to run
    | Swapping                 // the turn is dropped: about to store the next ticket
    | Notifying                // about to call notify_waiters
    | Releasing                // about to release the gate
    | Done
    | Cancelled                // dropped while it was still waiting

  /** Requests are named by the order of their reservations, so any number of them may exist. */
  datatype Request = Request(phase: Phase, work: nat)

  /**
    `served` (number of swaps so far) and `bodies` (the requests whose body started, in
    order) are history: no step of a request depends on them.
   */
  datatype State = State(
    ticketCounter: nat,
    turn: nat,
    generation: nat,
    gate: Option<nat>,
    requests: seq<Request>,
    served: nat,
    bodies: seq<nat>)

  /**
    One step is one atomic load or swap, the creation of a `Notified`, a `notify_waiters`, or a
    lock or unlock of the gate. `Idle` stands for everything the gate does not see.
   */
  datatype Action = Reserve(work: nat) | Step(n: nat) | Cancel(n: nat) | Idle

  const INIT := State(0, 0, 0, None, [], 0, [])

  /** The ticket that `fetch_add` handed to the n-th reservation. */
  function Ticket(n: nat): nat { n % U64 }

  /** Fewer than 2^64 requests are pending at once; nothing else bounds their number. */
  predicate HasRoom(s: State) { |s.requests| < s.served + U64 }

  predicate CanStep(s: State, n: nat) {
    n < |s.requests| &&
    match s.requests[n].phase
    case Locking(_) => s.gate.None?
    case Sleeping(armed) => armed != s.generation
    case Done => false
    case Cancelled => false
    case _ => true
  }

  /** A future can be dropped only where it is suspended. */
  predicate CanCancel(s: State, n: nat) {
    n < |s.requests| &&
    (s.requests[n].phase.Locking? || s.requests[n].phase.Sleeping? || s.requests[n].phase.Body?)
  }

  predicate Enabled(s: State, a: Action) {
    match a
    case Reserve(_) => HasRoom(s)
    case Step(n) => CanStep(s, n)
    case Cancel(n) => CanCancel(s, n)
    case Idle => true
  }

  function SetPhase(s: State, n: nat, p: Phase): State
    requires n < |s.requests|
  {
    s.(requests := s.requests[n := s.requests[n].(phase := p)])
  }

  function TakeStep(s: State, n: nat): State
    requires CanStep(s, n)
  {
    match s.requests[n].phase
    case Arming => SetPhase(s, n, FirstLoad(s.generation))
    case FirstLoad(g) => SetPhase(s, n, if s.turn == Ticket(n) then Locking(g) else Sleeping(g))
    case Locking(g) => SetPhase(s.(gate := Some(n)), n, SecondLoad(g))
    case SecondLoad(g) =>
      if s.turn == Ticket(n) then
        SetPhase(s.(bodies := s.bodies + [n]), n, Body(s.requests[n].work))
      else
        SetPhase(s, n, Unlocking(g))
    case Unlocking(g) => SetPhase(s.(gate := None), n, Sleeping(g))
    case Sleeping(_) => SetPhase(s, n, Arming)
    case Body(work) => SetPhase(s, n, if work == 0 then Swapping else Body(work - 1))
    case Swapping => SetPhase(s.(turn := (Ticket(n) + 1) % U64, served := s.served + 1), n, Notifying)
    case Notifying => SetPhase(s.(generation := s.generation + 1), n, Releasing)
    case Releasing => SetPhase(s.(gate := None), n, Done)
  }

  /** Dropping a waiter loses its ticket; dropping a running body drops its turn guard. */
  function Apply(s: State, a: Action): State
    requires Enabled(s, a)
  {
    match a
    case Reserve(work) =>
      s.(ticketCounter := (s.ticketCounter + 1) % U64, requests := s.requests + [Request(Arming, work)])
    case Step(n) => TakeStep(s, n)
    case Cancel(n) => SetPhase(s, n, if s.requests[n].phase.Body? then Swapping else Cancelled)
    case Idle => s
  }

  /** `t` is reached from `s` by performing the actions `run` in order. */
  ghost predicate Reaches(s: State, run: seq<Action>, t: State)
    decreases |run|
  {
    if run == [] then s == t else Enabled(s, run[0]) && Reaches(Apply(s, run[0]), run[1..], t)
  }

  // ---------- the invariant ----------

  predicate HoldsGate(p: Phase) {
    p.SecondLoad? || p.Unlocking? || p.Body? || p.Swapping? || p.Notifying? || p.Releasing?
  }

  predicate RunsBody(p: Phase) { p.Body? || p.Swapping? }

  /** The phases request `n` can be in when `served` turns have been handed on. */
  predicate FitsTurn(p: Phase, n: nat, served: nat) {
    if n + 1 < served then p.Done?
    else if n + 1 == served then p.Notifying? || p.Releasing? || p.Done?
    else if n == served then !p.Unlocking? && !p.Notifying? && !p.Releasing? && !p.Done?
    else p.Arming? || p.FirstLoad? || p.Sleeping? || p.Cancelled?
  }

  predicate ArmedBy(p: Phase, generation: nat) {
    (p.FirstLoad? || p.Locking? || p.SecondLoad? || p.Unlocking? || p.Sleeping?) ==> p.armed <= generation
  }

  ghost predicate Counters(s: State) {
    && s.served <= |s.requests| <= s.served + U64
    && s.ticketCounter == |s.requests| % U64
    && s.turn == s.served % U64
  }

  ghost predicate Phases(s: State) {
    forall n | 0 <= n < |s.requests| ::
      FitsTurn(s.requests[n].phase, n, s.served) && ArmedBy(s.requests[n].phase, s.generation)
  }

  ghost predicate GateOwner(s: State) {
    && (forall n | 0 <= n < |s.requests| :: HoldsGate(s.requests[n].phase) <==> s.gate == Some(n))
    && (s.gate.Some? ==> s.gate.value < |s.requests|)
  }

  /** A waiter whose turn has come sleeps only while its wake-up is still being sent. */
  ghost predicate NoLostWakeup(s: State) {
    s.served < |s.requests| && s.requests[s.served].phase == Sleeping(s.generation)
    ==> 0 < s.served && s.requests[s.served - 1].phase.Notifying?
  }

  /** Bodies ran exactly in ticket order; at most the one of `served` is still running. */
  ghost predicate InOrder(s: State) {
    if s.served < |s.requests| && RunsBody(s.requests[s.served].phase)
    then s.bodies == UpTo(s.served + 1)
    else s.bodies == UpTo(s.served)
  }

  ghost predicate Inv(s: State) {
    Counters(s) && Phases(s) && GateOwner(s) && NoLostWakeup(s) && InOrder(s)
  }

  /** Within a window of 2^64 pending requests the wrapped ticket identifies the request. */
  lemma TicketNamesTurn(served: nat, n: nat)
    requires served <= n < served + U64
    ensures served % U64 == Ticket(n) <==> n == served
  {
  }

  lemma NextTurn(served: nat)
    ensures (Ticket(served) + 1) % U64 == (served + 1) % U64
  {
  }

  lemma ReserveKeepsInv(s: State, work: nat)
    requires Inv(s) && HasRoom(s)
    ensures Inv(Apply(s, Reserve(work)))
  {
    var t := Apply(s, Reserve(work));
    NextTurn(|s.requests|);
    forall n | 0 <= n < |t.requests| ensures FitsTurn(t.requests[n].phase, n, t.served)
      && ArmedBy(t.requests[n].phase, t.generation) && (HoldsGate(t.requests[n].phase) <==> t.gate == Some(n)) {
      assert n < |s.requests| ==> t.requests[n] == s.requests[n];
    }
  }

  lemma CancelKeepsInv(s: State, n: nat)
    requires Inv(s) && CanCancel(s, n)
    ensures Inv(Apply(s, Cancel(n)))
  {
  }

  /** The turn is compared with the ticket only by the request whose turn it may be. */
  lemma TurnMatches(s: State, n: nat)
    requires Counters(s) && Phases(s) && n < |s.requests|
    requires s.requests[n].phase.FirstLoad? || s.requests[n].phase.SecondLoad?
    ensures s.served <= n && (s.turn == Ticket(n) <==> n == s.served)
  {
    assert FitsTurn(s.requests[n].phase, n, s.served);
    TicketNamesTurn(s.served, n);
  }

  lemma StepKeepsPhases(s: State, n: nat)
    requires Inv(s) && CanStep(s, n)
    ensures Counters(TakeStep(s, n)) && Phases(TakeStep(s, n))
  {
    assert FitsTurn(s.requests[n].phase, n, s.served);
    var p := s.requests[n].phase;
    if p.FirstLoad? || p.SecondLoad? { TurnMatches(s, n); }
    if p.Swapping? { NextTurn(s.served); }
    var t := TakeStep(s, n);
    forall m | 0 <= m < |t.requests|
      ensures FitsTurn(t.requests[m].phase, m, t.served) && ArmedBy(t.requests[m].phase, t.generation)
    {
      assert FitsTurn(s.requests[m].phase, m, s.served) && ArmedBy(s.requests[m].phase, s.generation);
      if m != n { assert t.requests[m] == s.requests[m]; }
    }
  }

  lemma StepKeepsGateOwner(s: State, n: nat)
    requires Inv(s) && CanStep(s, n)
    ensures GateOwner(TakeStep(s, n))
  {
    var t := TakeStep(s, n);
    forall m | 0 <= m < |t.requests| ensures HoldsGate(t.requests[m].phase) <==> t.gate == Some(m) {
      assert HoldsGate(s.requests[m].phase) <==> s.gate == Some(m);
      if m != n { assert t.requests[m] == s.requests[m]; }
    }
  }

  lemma StepKeepsWakeup(s: State, n: nat)
    requires Inv(s) && CanStep(s, n)
    ensures NoLostWakeup(TakeStep(s, n))
  {
    var p := s.requests[n].phase;
    assert FitsTurn(p, n, s.served);
    if p.FirstLoad? || p.SecondLoad? { TurnMatches(s, n); }
    var t := TakeStep(s, n);
    if t.served < |t.requests| && t.served != n {
      assert t.requests[t.served] == s.requests[t.served];
      assert ArmedBy(s.requests[t.served].phase, s.generation);
    }
  }

  lemma StepKeepsOrder(s: State, n: nat)
    requires Inv(s) && CanStep(s, n)
    ensures InOrder(TakeStep(s, n))
  {
    var p := s.requests[n].phase;
    assert FitsTurn(p, n, s.served);
    if p.FirstLoad? || p.SecondLoad? { TurnMatches(s, n); }
    var t := TakeStep(s, n);
    if p.SecondLoad? {
      assert UpTo(n) + [n] == UpTo(n + 1);
    } else if t.served < |t.requests| && t.served != n {
      assert t.requests[t.served] == s.requests[t.served];
      assert FitsTurn(s.requests[t.served].phase, t.served, s.served);
    }
  }

  lemma StepKeepsInv(s: State, n: nat)
    requires Inv(s) && CanStep(s, n)
    ensures Inv(TakeStep(s, n))
  {
    StepKeepsPhases(s, n);
    StepKeepsGateOwner(s, n);
    StepKeepsWakeup(s, n);
    StepKeepsOrder(s, n);
  }

  lemma {:induction false} RunKeepsInv(s: State, run: seq<Action>, t: State)
    requires Inv(s) && Reaches(s, run, t)
    ensures Inv(t)
    decreases |run|
  {
    if run == [] {
    } else {
      match run[0] {
        case Reserve(work) => ReserveKeepsInv(s, work);
        case Step(n) => StepKeepsInv(s, n);
        case Cancel(n) => CancelKeepsInv(s, n);
        case Idle =>
      }
      RunKeepsInv(Apply(s, run[0]), run[1..], t);
    }
  }

  // ---------- what the gate guarantees in every interleaving ----------

  /**
    At every moment of every run, however many requests there are and whichever are
    dropped: at most one body runs; the bodies that started are 0, 1, 2, ... with none
    skipped or repeated; and the value `Drop` is about to swap out is the ticket being dropped.
   */
  lemma MutualExclusionInTicketOrder(run: seq<Action>, s: State)
    requires Reaches(INIT, run, s)
    ensures forall m, n | 0 <= m < |s.requests| && 0 <= n < |s.requests|
              && RunsBody(s.requests[m].phase) && RunsBody(s.requests[n].phase) :: m == n
    ensures s.bodies == UpTo(|s.bodies|) && s.served <= |s.bodies| <= s.served + 1
    ensures forall n | 0 <= n < |s.requests| && s.requests[n].phase.Swapping? :: s.turn == Ticket(n)
  {
    RunKeepsInv(INIT, run, s);
  }

  /** The second load always agrees with the first, so the branch that gives the gate back is dead. */
  lemma SecondLoadNeverFails(run: seq<Action>, s: State, n: nat)
    requires Reaches(INIT, run, s)
    requires n < |s.requests|
    ensures s.requests[n].phase.SecondLoad? ==> s.turn == Ticket(n)
    ensures !s.requests[n].phase.Unlocking?
  {
    RunKeepsInv(INIT, run, s);
    assert FitsTurn(s.requests[n].phase, n, s.served);
  }
}
