/** Bodies under the mutation gate, whatever they are, on one shared state. */
module SerialBodies {
  import opened Collections
  import opened Wrappers
  import G = MutationGate

  datatype Progress<S, J, E> = Progress(state: S, job: J, trace: seq<E>)

  type Advance<!S, !J, E> = (S, J) -> Progress<S, J, E>

  /** `n` steps without anyone else in between. */
  function Steps<S, J, E>(advance: Advance<S, J, E>, s: S, job: J, n: nat): Progress<S, J, E> {
    if n == 0 then Progress(s, job, [])
    else
      var p := Steps(advance, s, job, n - 1);
      var q := advance(p.state, p.job);
      Progress(q.state, q.job, p.trace + q.trace)
  }

  lemma OneStep<S, J, E>(advance: Advance<S, J, E>, s: S, job: J)
    ensures Steps(advance, s, job, 1) == advance(s, job)
  {
    assert Steps(advance, s, job, 0) == Progress(s, job, []);
    assert [] + advance(s, job).trace == advance(s, job).trace;
  }

  /** A job that does nothing any more stays as it is. */
  lemma {:induction false} StaysFinished<S, J, E>(advance: Advance<S, J, E>, s: S, job: J, m: nat, n: nat,
                                                  p: Progress<S, J, E>)
    requires m <= n && Steps(advance, s, job, m) == p && advance(p.state, p.job) == Progress(p.state, p.job, [])
    ensures Steps(advance, s, job, n) == p
    decreases n - m
  {
    if m == n {
    } else {
      assert p.trace + [] == p.trace;
      StaysFinished(advance, s, job, m + 1, n, p);
    }
  }

  // ---------- the gate, the bodies and the state together ----------

  /**
    Each request that holds the turn advances a job of its own, one step at a time.
    `todo` are the jobs as they arrived, `done` counts the steps each body has taken, `calls`
    lists what the bodies did, by ticket.
   */
  datatype World<S, J, E> = World(
    gate: G.State,
    state: S,
    todo: seq<J>,
    jobs: seq<J>,
    done: seq<nat>,
    dropped: set<nat>,
    calls: seq<(nat, E)>)

  function Begin<S, J, E>(init: S): World<S, J, E> { World(G.INIT, init, [], [], [], {}, []) }

  datatype Action<J> = Arrive(job: J, work: nat) | Step(n: nat) | Drop(n: nat)

  predicate Enabled<S, J, E>(w: World<S, J, E>, a: Action<J>) {
    match a
    case Arrive(_, _) => G.HasRoom(w.gate)
    case Step(n) => G.CanStep(w.gate, n)
    case Drop(n) => G.CanCancel(w.gate, n)
  }

  function Tagged<E>(n: nat, trace: seq<E>): (r: seq<(nat, E)>)
    ensures |r| == |trace| && forall i | 0 <= i < |r| :: r[i] == (n, trace[i])
  {
    seq(|trace|, i requires 0 <= i < |trace| => (n, trace[i]))
  }

  ghost predicate SameLengths<S, J, E>(w: World<S, J, E>) { |w.todo| == |w.jobs| == |w.done| == |w.gate.requests| }

  /** A step of the gate; if it is one of a body with work left, the body's job advances. */
  function TakeStep<S, J, E>(advance: Advance<S, J, E>, w: World<S, J, E>, n: nat): World<S, J, E>
    requires G.CanStep(w.gate, n) && n < |w.jobs| && n < |w.done|
  {
    var gate := G.TakeStep(w.gate, n);
    var phase := w.gate.requests[n].phase;
    if phase.Body? && phase.work > 0 then
      var p := advance(w.state, w.jobs[n]);
      w.(gate := gate, state := p.state, jobs := w.jobs[n := p.job], done := w.done[n := w.done[n] + 1],
         calls := w.calls + Tagged(n, p.trace))
    else w.(gate := gate)
  }

  function Apply<S, J, E>(advance: Advance<S, J, E>, w: World<S, J, E>, a: Action<J>): World<S, J, E>
    requires Enabled(w, a) && |w.jobs| == |w.done| == |w.gate.requests|
  {
    match a
    case Arrive(job, work) =>
      w.(gate := G.Apply(w.gate, G.Reserve(work)), todo := w.todo + [job], jobs := w.jobs + [job], done := w.done + [0])
    case Step(n) => TakeStep(advance, w, n)
    case Drop(n) =>
      w.(gate := G.Apply(w.gate, G.Cancel(n)),
         dropped := if w.gate.requests[n].phase.Body? then w.dropped + {n} else w.dropped)
  }

  // ---------- the serial execution ----------

  datatype Past<S, E> = Past(state: S, calls: seq<(nat, E)>)

  /** The first `n` jobs one after the other, each as far as `done` says. */
  function Replay<S, J, E>(advance: Advance<S, J, E>, init: S, todo: seq<J>, done: seq<nat>, n: nat): Past<S, E>
    requires n <= |todo| == |done|
  {
    if n == 0 then Past(init, [])
    else
      var past := Replay(advance, init, todo, done, n - 1);
      var p := Steps(advance, past.state, todo[n - 1], done[n - 1]);
      Past(p.state, past.calls + Tagged(n - 1, p.trace))
  }

  lemma {:induction false} IdleBodiesAddNothing<S, J, E>(advance: Advance<S, J, E>, init: S, todo: seq<J>,
                                                         done: seq<nat>, k: nat, n: nat)
    requires k <= n <= |todo| == |done| && forall m | k <= m < n :: done[m] == 0
    ensures Replay(advance, init, todo, done, n) == Replay(advance, init, todo, done, k)
    decreases n - k
  {
    if k == n {
    } else {
      IdleBodiesAddNothing(advance, init, todo, done, k, n - 1);
    }
  }

  lemma {:induction false} ReplayOfPrefix<S, J, E>(advance: Advance<S, J, E>, init: S, todo: seq<J>, done: seq<nat>,
                                                   todo': seq<J>, done': seq<nat>, n: nat)
    requires n <= |todo| == |done| && n <= |todo'| == |done'|
    requires todo[..n] == todo'[..n] && done[..n] == done'[..n]
    ensures Replay(advance, init, todo, done, n) == Replay(advance, init, todo', done', n)
  {
    if n == 0 {
    } else {
      assert todo[..n - 1] == todo[..n][..n - 1] && done[..n - 1] == done[..n][..n - 1];
      assert todo'[..n - 1] == todo'[..n][..n - 1] && done'[..n - 1] == done'[..n][..n - 1];
      assert todo[n - 1] == todo[..n][n - 1] && done[n - 1] == done[..n][n - 1];
      ReplayOfPrefix(advance, init, todo, done, todo', done', n - 1);
    }
  }

  // ---------- the invariant ----------

  /** How far the body of a request in this phase has got. */
  predicate DoneFits(p: G.Phase, done: nat, work: nat, dropped: bool) {
    match p
    case Body(left) => done + left == work
    case Swapping => done == work || dropped
    case Notifying => done == work || dropped
    case Releasing => done == work || dropped
    case Done => done == work || dropped
    case _ => done == 0
  }

  ghost predicate DoneAt<S, J, E>(w: World<S, J, E>, n: nat)
    requires SameLengths(w) && n < |w.done|
  {
    DoneFits(w.gate.requests[n].phase, w.done[n], w.gate.requests[n].work, n in w.dropped)
  }

  ghost predicate JobAt<S, J, E>(advance: Advance<S, J, E>, init: S, w: World<S, J, E>, n: nat)
    requires SameLengths(w) && n < |w.done|
  {
    w.jobs[n] == Steps(advance, Replay(advance, init, w.todo, w.done, n).state, w.todo[n], w.done[n]).job
  }

  ghost predicate JobsFit<S, J, E>(advance: Advance<S, J, E>, init: S, w: World<S, J, E>)
    requires SameLengths(w)
  {
    forall n | 0 <= n < |w.done| :: JobAt(advance, init, w, n)
  }

  /** State and calls are those of the serial execution, and so is every job. */
  ghost predicate Serial<S, J, E>(advance: Advance<S, J, E>, init: S, w: World<S, J, E>)
    requires SameLengths(w)
  {
    Past(w.state, w.calls) == Replay(advance, init, w.todo, w.done, |w.done|) && JobsFit(advance, init, w)
  }

  ghost predicate Inv<S, J, E>(advance: Advance<S, J, E>, init: S, w: World<S, J, E>) {
    && SameLengths(w) && G.Inv(w.gate)
    && (forall n | 0 <= n < |w.done| :: DoneAt(w, n))
    && Serial(advance, init, w)
  }

  lemma ArriveKeepsInv<S, J, E>(advance: Advance<S, J, E>, init: S, w: World<S, J, E>, job: J, work: nat)
    requires Inv(advance, init, w) && Enabled(w, Arrive(job, work))
    ensures Inv(advance, init, Apply(advance, w, Arrive(job, work)))
  {
    var v := Apply(advance, w, Arrive(job, work));
    G.ReserveKeepsInv(w.gate, work);
    forall n | 0 <= n < |v.done| ensures DoneAt(v, n) {
      if n < |w.done| { assert DoneAt(w, n); }
    }
    forall n | 0 <= n <= |w.done|
      ensures Replay(advance, init, v.todo, v.done, n) == Replay(advance, init, w.todo, w.done, n)
    {
      ReplayOfPrefix(advance, init, v.todo, v.done, w.todo, w.done, n);
    }
    forall n | 0 <= n < |v.done| ensures JobAt(advance, init, v, n) {
      if n < |w.done| { assert JobAt(advance, init, w, n); }
    }
    IdleBodiesAddNothing(advance, init, v.todo, v.done, |w.done|, |v.done|);
  }

  lemma SameWorkIsSerial<S, J, E>(advance: Advance<S, J, E>, init: S, w: World<S, J, E>, v: World<S, J, E>)
    requires SameLengths(w) && SameLengths(v) && Serial(advance, init, w)
    requires v.(gate := w.gate, dropped := w.dropped) == w
    ensures Serial(advance, init, v)
  {
    forall m | 0 <= m < |v.done| ensures JobAt(advance, init, v, m) { assert JobAt(advance, init, w, m); }
  }

  lemma DropKeepsInv<S, J, E>(advance: Advance<S, J, E>, init: S, w: World<S, J, E>, n: nat)
    requires Inv(advance, init, w) && Enabled(w, Drop(n))
    ensures Inv(advance, init, Apply(advance, w, Drop(n)))
  {
    var v := Apply(advance, w, Drop(n));
    G.CancelKeepsInv(w.gate, n);
    forall m | 0 <= m < |v.done| ensures DoneAt(v, m) { assert DoneAt(w, m); }
    SameWorkIsSerial(advance, init, w, v);
  }

  lemma StepKeepsDone<S, J, E>(advance: Advance<S, J, E>, init: S, w: World<S, J, E>, n: nat, m: nat)
    requires Inv(advance, init, w) && Enabled(w, Step(n)) && m < |w.done|
    ensures DoneAt(Apply(advance, w, Step(n)), m)
  {
    assert DoneAt(w, m);
    if m != n { assert Apply(advance, w, Step(n)).gate.requests[m] == w.gate.requests[m]; }
  }

  lemma WaitersHaveNotBegun<S, J, E>(advance: Advance<S, J, E>, init: S, w: World<S, J, E>, n: nat)
    requires Inv(advance, init, w) && w.gate.served < n < |w.done|
    ensures w.done[n] == 0
  {
    assert DoneAt(w, n);
    assert G.FitsTurn(w.gate.requests[n].phase, n, w.gate.served);
  }

  lemma NobodyBehindHasBegun<S, J, E>(advance: Advance<S, J, E>, init: S, w: World<S, J, E>, n: nat)
    requires Inv(advance, init, w) && n == w.gate.served < |w.done|
    ensures forall m | n < m < |w.done| :: w.done[m] == 0
    ensures Past(w.state, w.calls) == Replay(advance, init, w.todo, w.done, n + 1) && JobAt(advance, init, w, n)
  {
    forall m | n < m < |w.done| ensures w.done[m] == 0 { WaitersHaveNotBegun(advance, init, w, m); }
    IdleBodiesAddNothing(advance, init, w.todo, w.done, n + 1, |w.done|);
  }

  /** Two worlds that differ only in how far the last body that has begun has got. */
  ghost predicate DifferAt<S, J, E>(w: World<S, J, E>, v: World<S, J, E>, n: nat)
    requires SameLengths(w) && SameLengths(v)
  {
    && n < |w.done| == |v.done| && v.todo == w.todo
    && (forall m | 0 <= m < |w.done| && m != n :: v.done[m] == w.done[m] && v.jobs[m] == w.jobs[m])
    && forall m | n < m < |w.done| :: w.done[m] == 0
  }

  lemma SerialUpTo<S, J, E>(advance: Advance<S, J, E>, init: S, w: World<S, J, E>, v: World<S, J, E>, n: nat, m: nat)
    requires SameLengths(w) && SameLengths(v) && Serial(advance, init, w) && DifferAt(w, v, n)
    requires m < |v.done| && m != n
    ensures JobAt(advance, init, v, m)
  {
    assert JobAt(advance, init, w, m);
    if m < n { ReplayOfPrefix(advance, init, v.todo, v.done, w.todo, w.done, m); }
  }

  lemma BodyIsReplaced<S, J, E>(advance: Advance<S, J, E>, init: S, w: World<S, J, E>, v: World<S, J, E>, n: nat)
    requires SameLengths(w) && SameLengths(v) && Serial(advance, init, w) && DifferAt(w, v, n)
    requires Past(v.state, v.calls) == Replay(advance, init, v.todo, v.done, n + 1) && JobAt(advance, init, v, n)
    ensures Serial(advance, init, v)
  {
    IdleBodiesAddNothing(advance, init, v.todo, v.done, n + 1, |v.done|);
    forall m | 0 <= m < |v.done| && m != n ensures JobAt(advance, init, v, m) { SerialUpTo(advance, init, w, v, n, m); }
  }

  lemma TaggedAppend<E>(n: nat, a: seq<E>, c: seq<E>)
    ensures Tagged(n, a + c) == Tagged(n, a) + Tagged(n, c)
  {
  }

  /** One more step of the current body is one more step of the serial execution. */
  lemma OneStepLater<S, J, E>(advance: Advance<S, J, E>, init: S, w: World<S, J, E>, n: nat)
    requires SameLengths(w) && n < |w.done| && G.CanStep(w.gate, n)
    requires w.gate.requests[n].phase.Body? && w.gate.requests[n].phase.work > 0
    requires Past(w.state, w.calls) == Replay(advance, init, w.todo, w.done, n + 1) && JobAt(advance, init, w, n)
    ensures var v := Apply(advance, w, Step(n));
            Past(v.state, v.calls) == Replay(advance, init, v.todo, v.done, n + 1) && JobAt(advance, init, v, n)
  {
    var v := Apply(advance, w, Step(n));
    ReplayOfPrefix(advance, init, v.todo, v.done, w.todo, w.done, n);
    var past := Replay(advance, init, w.todo, w.done, n);
    var p := Steps(advance, past.state, w.todo[n], w.done[n]);
    var q := advance(p.state, p.job);
    TaggedAppend(n, p.trace, q.trace);
    Associative(past.calls, Tagged(n, p.trace), Tagged(n, q.trace));
  }

  /** The only body that can move is the one whose turn it is, and nobody behind it has begun. */
  lemma StepIsSerial<S, J, E>(advance: Advance<S, J, E>, init: S, w: World<S, J, E>, n: nat)
    requires Inv(advance, init, w) && Enabled(w, Step(n))
    ensures Serial(advance, init, Apply(advance, w, Step(n)))
  {
    var v := Apply(advance, w, Step(n));
    var p := w.gate.requests[n].phase;
    assert G.FitsTurn(p, n, w.gate.served);
    if p.Body? && p.work > 0 {
      NobodyBehindHasBegun(advance, init, w, n);
      OneStepLater(advance, init, w, n);
      BodyIsReplaced(advance, init, w, v, n);
    } else {
      SameWorkIsSerial(advance, init, w, v);
    }
  }

  lemma StepKeepsInv<S, J, E>(advance: Advance<S, J, E>, init: S, w: World<S, J, E>, n: nat)
    requires Inv(advance, init, w) && Enabled(w, Step(n))
    ensures Inv(advance, init, Apply(advance, w, Step(n)))
  {
    G.StepKeepsInv(w.gate, n);
    forall m | 0 <= m < |w.done| ensures DoneAt(Apply(advance, w, Step(n)), m) {
      StepKeepsDone(advance, init, w, n, m);
    }
    StepIsSerial(advance, init, w, n);
  }

  lemma ActionKeepsInv<S, J, E>(advance: Advance<S, J, E>, init: S, w: World<S, J, E>, a: Action<J>)
    requires Inv(advance, init, w) && Enabled(w, a)
    ensures Inv(advance, init, Apply(advance, w, a))
  {
    match a
    case Arrive(job, work) => ArriveKeepsInv(advance, init, w, job, work);
    case Step(n) => StepKeepsInv(advance, init, w, n);
    case Drop(n) => DropKeepsInv(advance, init, w, n);
  }

  // ---------- calls in ticket order, whatever happens to the state ----------

  /** Calls of tickets below `n`, those of one request never between those of another. */
  ghost predicate Ordered<E>(calls: seq<(nat, E)>, n: nat) {
    (forall i | 0 <= i < |calls| :: calls[i].0 < n) && forall i, j | 0 <= i < j < |calls| :: calls[i].0 <= calls[j].0
  }

  /** Only requests that have had their turn, or have it now, have called. */
  ghost predicate InTurn<S, J, E>(w: World<S, J, E>) {
    && SameLengths(w) && G.Inv(w.gate) && Ordered(w.calls, |w.done|)
    && forall i | 0 <= i < |w.calls| :: w.calls[i].0 <= w.gate.served
  }

  lemma StepKeepsTurns<S, J, E>(advance: Advance<S, J, E>, w: World<S, J, E>, n: nat)
    requires InTurn(w) && Enabled(w, Step(n))
    ensures InTurn(Apply(advance, w, Step(n)))
  {
    G.StepKeepsInv(w.gate, n);
    assert G.FitsTurn(w.gate.requests[n].phase, n, w.gate.served);
  }

  /** The order of the calls does not depend on the state they find: others may have changed it. */
  lemma ActionKeepsTurns<S, J, E>(advance: Advance<S, J, E>, w: World<S, J, E>, a: Action<J>, s: S)
    requires InTurn(w) && Enabled(w, a)
    ensures InTurn(Apply(advance, w, a)) && InTurn(w.(state := s))
  {
    match a
    case Arrive(_, work) => G.ReserveKeepsInv(w.gate, work);
    case Step(n) => StepKeepsTurns(advance, w, n);
    case Drop(n) => G.CancelKeepsInv(w.gate, n);
  }

  // ---------- runs ----------

  /** Which jobs may arrive, and with how much work. */
  type Admission<!J> = (J, nat) -> bool

  ghost predicate Reaches<S, J, E>(advance: Advance<S, J, E>, admit: Admission<J>, w: World<S, J, E>,
                                   run: seq<Action<J>>, v: World<S, J, E>)
    decreases |run|
  {
    SameLengths(w) &&
    if run == [] then w == v
    else
      Enabled(w, run[0]) && (run[0].Arrive? ==> admit(run[0].job, run[0].work))
      && Reaches(advance, admit, Apply(advance, w, run[0]), run[1..], v)
  }

  ghost predicate AllAdmitted<S, J, E>(admit: Admission<J>, w: World<S, J, E>) {
    SameLengths(w) && forall n | 0 <= n < |w.todo| :: admit(w.todo[n], w.gate.requests[n].work)
  }

  lemma ActionKeepsAdmitted<S, J, E>(advance: Advance<S, J, E>, admit: Admission<J>, w: World<S, J, E>, a: Action<J>)
    requires AllAdmitted(admit, w) && Enabled(w, a) && (a.Arrive? ==> admit(a.job, a.work))
    ensures AllAdmitted(admit, Apply(advance, w, a))
  {
    var v := Apply(advance, w, a);
    forall n | 0 <= n < |v.todo| ensures admit(v.todo[n], v.gate.requests[n].work) {
      if n < |w.todo| { assert v.todo[n] == w.todo[n] && v.gate.requests[n].work == w.gate.requests[n].work; }
    }
  }

  lemma {:induction false} RunKeepsInv<S, J, E>(advance: Advance<S, J, E>, admit: Admission<J>, init: S,
                                                w: World<S, J, E>, run: seq<Action<J>>, v: World<S, J, E>)
    requires Inv(advance, init, w) && AllAdmitted(admit, w) && Reaches(advance, admit, w, run, v)
    ensures Inv(advance, init, v) && AllAdmitted(admit, v)
    decreases |run|
  {
    if run == [] {
    } else {
      ActionKeepsInv(advance, init, w, run[0]);
      ActionKeepsAdmitted(advance, admit, w, run[0]);
      RunKeepsInv(advance, admit, init, Apply(advance, w, run[0]), run[1..], v);
    }
  }

  // ---------- what the invariant says ----------

  lemma {:induction false} CallsAreOrdered<S, J, E>(advance: Advance<S, J, E>, init: S, todo: seq<J>,
                                                    done: seq<nat>, n: nat)
    requires n <= |todo| == |done|
    ensures Ordered(Replay(advance, init, todo, done, n).calls, n)
  {
    if n == 0 {
    } else {
      CallsAreOrdered(advance, init, todo, done, n - 1);
      var past := Replay(advance, init, todo, done, n - 1);
    }
  }

  /** What job `n` comes to alone, once its predecessors have done what they did. */
  function Alone<S, J, E>(advance: Advance<S, J, E>, init: S, w: World<S, J, E>, n: nat): Progress<S, J, E>
    requires n < |w.todo| == |w.done| == |w.gate.requests|
  {
    Steps(advance, Replay(advance, init, w.todo, w.done, n).state, w.todo[n], w.gate.requests[n].work)
  }

  /** A request that has handed on its turn has done all its work, unless it was dropped in the middle. */
  lemma ServedIsComplete<S, J, E>(advance: Advance<S, J, E>, init: S, w: World<S, J, E>, n: nat)
    requires Inv(advance, init, w) && n < |w.done| && n < w.gate.served && n !in w.dropped
    ensures w.jobs[n] == Alone(advance, init, w, n).job
    ensures Replay(advance, init, w.todo, w.done, n + 1).state == Alone(advance, init, w, n).state
  {
    assert DoneAt(w, n) && JobAt(advance, init, w, n);
    assert G.FitsTurn(w.gate.requests[n].phase, n, w.gate.served);
  }

  /** In every run: the serial execution, in ticket order, as far as it has got. */
  lemma RunIsSerial<S, J, E>(advance: Advance<S, J, E>, admit: Admission<J>, init: S, run: seq<Action<J>>,
                             w: World<S, J, E>)
    requires Reaches(advance, admit, Begin(init), run, w)
    ensures Inv(advance, init, w) && AllAdmitted(admit, w)
    ensures Ordered(w.calls, |w.done|)
    ensures forall n | 0 <= n < |w.done| && n < w.gate.served && n !in w.dropped ::
              && w.jobs[n] == Alone(advance, init, w, n).job
              && Replay(advance, init, w.todo, w.done, n + 1).state == Alone(advance, init, w, n).state
  {
    RunKeepsInv(advance, admit, init, Begin(init), run, w);
    CallsAreOrdered(advance, init, w.todo, w.done, |w.done|);
    forall n | 0 <= n < |w.done| && n < w.gate.served && n !in w.dropped
      ensures w.jobs[n] == Alone(advance, init, w, n).job
      ensures Replay(advance, init, w.todo, w.done, n + 1).state == Alone(advance, init, w, n).state
    {
      ServedIsComplete(advance, init, w, n);
    }
  }
}
