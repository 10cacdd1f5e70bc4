/** The durable adapter's write queue, its sticky error and its flush barrier, as interleaved steps. */
module WriteQueue {

  /** Where one flush() call stands: behind earlier flushes, draining the queue, retrying once, or settled. */
  datatype Phase = Waiting | Draining(upTo: nat) | Retrying(upTo: nat) | Returned | Failed

  /** asked is the store's version when flush() was called. */
  datatype Flush = Flush(asked: nat, phase: Phase)

  /**
   * version counts mutations of the live store; job i writes the snapshot of version jobs[i]; jobs before done have
   * settled; durable is the version the database holds.
   */
  datatype Queue = Queue(
    version: nat,
    jobs: seq<nat>,
    done: nat,
    persistError: bool,
    durable: nat,
    flushes: seq<Flush>)

  /** Mutate: onMutation enqueues. Write: the oldest job settles. Ask: flush(). Wake: a flush continues after an await. */
  datatype Event = Mutate | Write(ok: bool) | Ask | Wake(flush: nat)

  const START := Queue(0, [], 0, false, 0, [])

  predicate IsSettled(f: Flush) {
    f.phase.Returned? || f.phase.Failed?
  }

  function Enqueue(q: Queue): Queue {
    q.(jobs := q.jobs + [q.version])
  }

  function SetPhase(q: Queue, i: nat, phase: Phase): Queue
    requires i < |q.flushes|
  {
    q.(flushes := q.flushes[i := q.flushes[i].(phase := phase)])
  }

  function Next(q: Queue, e: Event): Queue {
    match e
    case Mutate => Enqueue(q.(version := q.version + 1))
    case Write(ok) =>
      if q.done >= |q.jobs| then q
      else if ok then q.(done := q.done + 1, durable := q.jobs[q.done])
      else q.(done := q.done + 1, persistError := true)
    case Ask => q.(flushes := q.flushes + [Flush(q.version, Waiting)])
    case Wake(i) =>
      if i >= |q.flushes| then q
      else match q.flushes[i].phase
        case Waiting =>
          if forall j | 0 <= j < i :: IsSettled(q.flushes[j]) then SetPhase(q, i, Draining(|q.jobs|)) else q
        case Draining(upTo) =>
          if q.done < upTo then q
          else if !q.persistError then SetPhase(q, i, Returned)
          else SetPhase(Enqueue(q.(persistError := false)), i, Retrying(|q.jobs| + 1))
        case Retrying(upTo) =>
          if q.done < upTo then q else SetPhase(q, i, if q.persistError then Failed else Returned)
        case _ => q
  }

  function Run(q: Queue, trace: seq<Event>): Queue
    decreases |trace|
  {
    if |trace| == 0 then q else Run(Next(q, trace[0]), trace[1..])
  }

  /** Version of the latest settled job. */
  function Reached(q: Queue, upTo: nat): nat
    requires upTo <= |q.jobs|
  {
    if upTo == 0 then 0 else q.jobs[upTo - 1]
  }

  predicate JobsInOrder(q: Queue) {
    && q.done <= |q.jobs|
    && (forall i, j | 0 <= i <= j < |q.jobs| :: q.jobs[i] <= q.jobs[j])
    && q.version == Reached(q, |q.jobs|)
    && q.durable <= Reached(q, q.done)
  }

  predicate FlushFits(q: Queue, f: Flush) {
    match f.phase
    case Waiting => f.asked <= q.version
    case Draining(upTo) => upTo <= |q.jobs| && f.asked <= Reached(q, upTo)
    case Retrying(upTo) => 0 < upTo <= |q.jobs| && f.asked <= Reached(q, upTo)
    case Returned => f.asked <= q.durable
    case Failed => true
  }

  /** Flushes run one at a time, in call order. */
  predicate OneAtATime(q: Queue) {
    forall i, j | 0 <= i < j < |q.flushes| && !q.flushes[j].phase.Waiting? :: IsSettled(q.flushes[i])
  }

  predicate RetryPending(q: Queue) {
    exists i | 0 <= i < |q.flushes| :: q.flushes[i].phase.Retrying? && q.done < q.flushes[i].phase.upTo
  }

  /** Without a recorded error, and with no retry still to run, the database holds the latest settled snapshot. */
  predicate CleanMeansDurable(q: Queue) {
    !q.persistError && !RetryPending(q) && q.done <= |q.jobs| ==> q.durable == Reached(q, q.done)
  }

  predicate Inv(q: Queue) {
    && JobsInOrder(q) && OneAtATime(q) && CleanMeansDurable(q)
    && forall i | 0 <= i < |q.flushes| :: FlushFits(q, q.flushes[i])
  }

  /** Beside a running flush no other one is retrying. */
  lemma NoOtherRetry(q: Queue, i: nat)
    requires Inv(q) && i < |q.flushes| && !q.flushes[i].phase.Waiting? && !IsSettled(q.flushes[i])
    ensures forall j | 0 <= j < |q.flushes| && j != i :: !q.flushes[j].phase.Retrying?
  {
  }

  lemma FlushesFit(q: Queue, n: Queue, i: nat)
    requires Inv(q) && i < |q.flushes| == |n.flushes| && n.version == q.version && n.durable == q.durable
    requires n.jobs == q.jobs || n.jobs == q.jobs + [q.version]
    requires forall j | 0 <= j < |q.flushes| && j != i :: n.flushes[j] == q.flushes[j]
    requires FlushFits(n, n.flushes[i])
    ensures forall j | 0 <= j < |n.flushes| :: FlushFits(n, n.flushes[j])
  {
    forall j | 0 <= j < |n.flushes| ensures FlushFits(n, n.flushes[j]) {
      if j != i { assert FlushFits(q, q.flushes[j]); }
    }
  }

  lemma DrainedKeepsInv(q: Queue, i: nat)
    requires Inv(q) && i < |q.flushes| && q.flushes[i].phase.Draining? && q.done >= q.flushes[i].phase.upTo
    ensures Inv(Next(q, Wake(i)))
  {
    var n := Next(q, Wake(i));
    assert FlushFits(q, q.flushes[i]);
    NoOtherRetry(q, i);
    FlushesFit(q, n, i);
    if q.persistError {
      assert n.flushes[i].phase == Retrying(|q.jobs| + 1) && RetryPending(n);
    }
  }

  lemma RetriedKeepsInv(q: Queue, i: nat)
    requires Inv(q) && i < |q.flushes| && q.flushes[i].phase.Retrying? && q.done >= q.flushes[i].phase.upTo
    ensures Inv(Next(q, Wake(i)))
  {
    var n := Next(q, Wake(i));
    assert FlushFits(q, q.flushes[i]);
    NoOtherRetry(q, i);
    assert !RetryPending(q);
    FlushesFit(q, n, i);
  }

  lemma WakeKeepsInv(q: Queue, i: nat)
    requires Inv(q) && i < |q.flushes|
    ensures Inv(Next(q, Wake(i)))
  {
    var n := Next(q, Wake(i));
    assert FlushFits(q, q.flushes[i]);
    if n != q {
      match q.flushes[i].phase
      case Draining(_) => DrainedKeepsInv(q, i);
      case Retrying(_) => RetriedKeepsInv(q, i);
      case _ => FlushesFit(q, n, i);
    }
  }

  lemma WriteKeepsInv(q: Queue, ok: bool)
    requires Inv(q) && q.done < |q.jobs|
    ensures Inv(Next(q, Write(ok))) && q.durable <= Next(q, Write(ok)).durable
  {
    var n := Next(q, Write(ok));
    forall j | 0 <= j < |n.flushes| ensures FlushFits(n, n.flushes[j]) {
      assert FlushFits(q, q.flushes[j]);
    }
    if !n.persistError && RetryPending(q) && !RetryPending(n) {
      assert n.durable == Reached(n, n.done);
    }
  }

  lemma GrowthKeepsInv(q: Queue, e: Event)
    requires Inv(q) && (e.Mutate? || e.Ask?)
    ensures Inv(Next(q, e))
  {
    var n := Next(q, e);
    assert forall k: nat | k <= |q.jobs| :: Reached(n, k) == Reached(q, k);
    forall j | 0 <= j < |n.flushes| ensures FlushFits(n, n.flushes[j]) {
      if j < |q.flushes| { assert FlushFits(q, q.flushes[j]); }
    }
    if RetryPending(q) {
      var i :| 0 <= i < |q.flushes| && q.flushes[i].phase.Retrying? && q.done < q.flushes[i].phase.upTo;
      assert n.flushes[i] == q.flushes[i];
    }
  }

  lemma StepKeepsInv(q: Queue, e: Event)
    requires Inv(q)
    ensures Inv(Next(q, e)) && q.durable <= Next(q, e).durable
  {
    match e
    case Wake(i) => if i < |q.flushes| { WakeKeepsInv(q, i); }
    case Write(ok) => if q.done < |q.jobs| { WriteKeepsInv(q, ok); }
    case _ => GrowthKeepsInv(q, e);
  }

  /**
   * The durability barrier: after any interleaving of mutations, write successes, write failures and concurrent
   * flushes, every flush that returned normally left the database at least as new as the state it was called on.
   */
  lemma {:induction false} ReturnedFlushIsDurable(trace: seq<Event>, q: Queue)
    requires Inv(q)
    ensures Inv(Run(q, trace)) && q.durable <= Run(q, trace).durable
    ensures forall i | 0 <= i < |Run(q, trace).flushes| && Run(q, trace).flushes[i].phase.Returned? ::
              Run(q, trace).flushes[i].asked <= Run(q, trace).durable
    decreases |trace|
  {
    if |trace| > 0 {
      StepKeepsInv(q, trace[0]);
      ReturnedFlushIsDurable(trace[1..], Next(q, trace[0]));
    } else {
      forall i | 0 <= i < |q.flushes| && q.flushes[i].phase.Returned? ensures q.flushes[i].asked <= q.durable {
        assert FlushFits(q, q.flushes[i]);
      }
    }
  }

  /** A flush that returned with no mutation since it was called left exactly the current state in the database. */
  lemma QuietFlushIsExact(q: Queue, i: nat)
    requires Inv(q) && i < |q.flushes| && q.flushes[i].phase.Returned? && q.flushes[i].asked == q.version
    ensures q.durable == q.version
  {
    assert FlushFits(q, q.flushes[i]);
    if q.done > 0 { assert q.jobs[q.done - 1] <= q.jobs[|q.jobs| - 1]; }
  }

  /** From a new process on: a returned flush is durable, exactly current if nothing was mutated since it was called. */
  lemma BarrierHoldsFromTheStart(trace: seq<Event>)
    ensures var q := Run(START, trace);
            && q.durable <= q.version
            && forall i | 0 <= i < |q.flushes| && q.flushes[i].phase.Returned? ::
                 q.flushes[i].asked <= q.durable && (q.flushes[i].asked == q.version ==> q.durable == q.version)
  {
    ReturnedFlushIsDurable(trace, START);
    var q := Run(START, trace);
    if q.done > 0 { assert q.jobs[q.done - 1] <= q.version; }
  }

  // ---------------------------------------------------------------- flushes end, and end well

  /** Some write that was really pending settles with an error. */
  predicate SomeWriteFails(q: Queue, trace: seq<Event>)
    decreases |trace|
  {
    |trace| > 0 && ((trace[0] == Write(false) && q.done < |q.jobs|) || SomeWriteFails(Next(q, trace[0]), trace[1..]))
  }

  predicate IsRunning(f: Flush) {
    f.phase.Draining? || f.phase.Retrying?
  }

  /** While one flush runs nobody else touches it or the recorded error; jobs are only added at the end. */
  lemma StepBesideRunning(q: Queue, e: Event, i: nat)
    requires Inv(q) && i < |q.flushes| && IsRunning(q.flushes[i]) && e != Wake(i)
    ensures var n := Next(q, e);
            && i < |n.flushes| && n.flushes[i] == q.flushes[i]
            && n.persistError == (q.persistError || (e == Write(false) && q.done < |q.jobs|))
            && |q.jobs| <= |n.jobs| && n.jobs[..|q.jobs|] == q.jobs
  {
    if e.Wake? && e.flush < |q.flushes| {
      assert e.flush > i ==> q.flushes[e.flush].phase.Waiting?;
      assert e.flush < i ==> IsSettled(q.flushes[e.flush]);
    }
  }

  lemma {:induction false} RunBesideRunning(q: Queue, trace: seq<Event>, i: nat)
    requires Inv(q) && i < |q.flushes| && IsRunning(q.flushes[i]) && Wake(i) !in trace
    ensures var z := Run(q, trace);
            && Inv(z) && i < |z.flushes| && z.flushes[i] == q.flushes[i]
            && z.persistError == (q.persistError || SomeWriteFails(q, trace))
            && |q.jobs| <= |z.jobs| && z.jobs[..|q.jobs|] == q.jobs
    decreases |trace|
  {
    if |trace| > 0 {
      var n := Next(q, trace[0]);
      StepBesideRunning(q, trace[0], i);
      StepKeepsInv(q, trace[0]);
      RunBesideRunning(n, trace[1..], i);
      assert Run(n, trace[1..]).jobs[..|q.jobs|] == Run(n, trace[1..]).jobs[..|n.jobs|][..|q.jobs|];
    }
  }

  /** What a flush waits for when it has been woken once more in the state z. */
  lemma RetryEnds(z: Queue, i: nat, job: nat)
    requires Inv(z) && i < |z.flushes| && z.flushes[i].phase == Retrying(job + 1) && job < z.done
    ensures var n := Next(z, Wake(i));
            && n.flushes[i] == z.flushes[i].(phase := if z.persistError then Failed else Returned)
            && n.persistError == z.persistError
            && (!z.persistError ==> z.jobs[job] <= n.durable && z.flushes[i].asked <= n.durable)
  {
    assert FlushFits(z, z.flushes[i]);
    NoOtherRetry(z, i);
    assert !RetryPending(z);
    assert z.jobs[job] <= z.jobs[z.done - 1];
  }

  /**
   * Progress behind an error: a drained flush with a recorded error clears it, writes the latest snapshot once more and,
   * woken when that write has settled, returns unless a write failed meanwhile. Returned, everything mutated before it
   * drained is in the database; without an error it returns at once.
   */
  lemma DrainedFlushEndsExactly(q: Queue, i: nat, rest: seq<Event>)
    requires Inv(q) && i < |q.flushes| && q.flushes[i].phase.Draining? && q.done >= q.flushes[i].phase.upTo
    requires Wake(i) !in rest && Run(Next(q, Wake(i)), rest).done > |q.jobs|
    ensures !q.persistError ==> Next(q, Wake(i)) == SetPhase(q, i, Returned)
    ensures q.persistError ==>
              var z := Run(Next(q, Wake(i)), rest);
              var n := Next(z, Wake(i));
              var failed := SomeWriteFails(Next(q, Wake(i)), rest);
              && Next(q, Wake(i)).jobs == q.jobs + [q.version] && !Next(q, Wake(i)).persistError
              && i < |n.flushes| && n.flushes[i] == q.flushes[i].(phase := if failed then Failed else Returned) && n.persistError == failed
              && (!failed ==> q.version <= n.durable && q.flushes[i].asked <= n.durable)
  {
    if q.persistError {
      StepKeepsInv(q, Wake(i));
      RunBesideRunning(Next(q, Wake(i)), rest, i);
      var z := Run(Next(q, Wake(i)), rest);
      RetryEnds(z, i, |q.jobs|);
      assert z.jobs[|q.jobs|] == z.jobs[..|q.jobs| + 1][|q.jobs|];
    }
  }

  /**
   * A flush whose turn has come returns with its state in the database once the jobs before it have settled, however they
   * settled, if the writes after that succeed.
   */
  lemma FlushReturns(q: Queue, i: nat, before: seq<Event>, after: seq<Event>)
    requires Inv(q) && i < |q.flushes| && q.flushes[i].phase.Waiting? && forall j | 0 <= j < i :: IsSettled(q.flushes[j])
    requires Wake(i) !in before && Wake(i) !in after
    requires var a := Run(Next(q, Wake(i)), before);
             a.done >= |q.jobs| && !SomeWriteFails(Next(a, Wake(i)), after) && Run(Next(a, Wake(i)), after).done > |a.jobs|
    ensures var a := Run(Next(q, Wake(i)), before);
            var n := Next(Run(Next(a, Wake(i)), after), Wake(i));
            i < |n.flushes| && n.flushes[i] == q.flushes[i].(phase := Returned) && q.flushes[i].asked <= n.durable
  {
    var a := Run(Next(q, Wake(i)), before);
    StepKeepsInv(q, Wake(i));
    RunBesideRunning(Next(q, Wake(i)), before, i);
    if a.persistError {
      DrainedFlushEndsExactly(a, i, after);
    } else {
      StepKeepsInv(a, Wake(i));
      RunKeepsSettled(Next(a, Wake(i)), after, i);
      ReturnedFlushIsDurable(after, Next(a, Wake(i)));
    }
  }

  lemma {:induction false} RunKeepsSettled(q: Queue, trace: seq<Event>, i: nat)
    requires i < |q.flushes| && IsSettled(q.flushes[i])
    ensures i < |Run(q, trace).flushes| && Run(q, trace).flushes[i] == q.flushes[i]
    decreases |trace|
  {
    if |trace| > 0 { RunKeepsSettled(Next(q, trace[0]), trace[1..], i); }
  }

  predicate HasFailed(q: Queue, i: nat) {
    i < |q.flushes| && q.flushes[i].phase.Failed?
  }

  predicate IsRetrying(q: Queue, i: nat) {
    i < |q.flushes| && q.flushes[i].phase.Retrying?
  }

  /** A retry with no error recorded fails only behind a new error. */
  lemma {:induction false} RetryFailsBehindAnError(q: Queue, trace: seq<Event>, i: nat)
    requires Inv(q) && IsRetrying(q, i) && !q.persistError && HasFailed(Run(q, trace), i)
    ensures SomeWriteFails(q, trace)
    decreases |trace|
  {
    var n := Next(q, trace[0]);
    StepKeepsInv(q, trace[0]);
    if trace[0] == Wake(i) && n != q {
      RunKeepsSettled(n, trace[1..], i);
      assert false;
    } else if trace[0] != Wake(i) {
      StepBesideRunning(q, trace[0], i);
    }
    if !n.persistError { RetryFailsBehindAnError(n, trace[1..], i); }
  }

  /** After n events the flush had drained and was retrying with no error recorded, and a write failed after that. */
  predicate FailsAfterDraining(q: Queue, trace: seq<Event>, i: nat, n: nat)
    requires n <= |trace|
  {
    var z := Run(q, trace[..n]);
    IsRetrying(z, i) && !z.persistError && SomeWriteFails(z, trace[n..])
  }

  lemma FailsOneLater(q: Queue, trace: seq<Event>, i: nat, n: nat)
    requires n < |trace| && FailsAfterDraining(Next(q, trace[0]), trace[1..], i, n)
    ensures FailsAfterDraining(q, trace, i, n + 1)
  {
    assert trace[..n + 1][0] == trace[0] && trace[..n + 1][1..] == trace[1..][..n] && trace[n + 1..] == trace[1..][n..];
  }

  lemma DrainingDoesNotFail(q: Queue, e: Event, i: nat)
    requires !HasFailed(q, i) && !IsRetrying(q, i)
    ensures !HasFailed(Next(q, e), i) && (IsRetrying(Next(q, e), i) ==> !Next(q, e).persistError)
  {
  }

  /** A flush fails only if its one retry met a new error: an error recorded before it drained is never reported by it. */
  lemma {:induction false} FailedOnlyBehindANewError(q: Queue, trace: seq<Event>, i: nat) returns (n: nat)
    requires Inv(q) && !HasFailed(q, i) && !IsRetrying(q, i) && HasFailed(Run(q, trace), i)
    ensures n <= |trace| && FailsAfterDraining(q, trace, i, n)
    decreases |trace|
  {
    var z := Next(q, trace[0]);
    StepKeepsInv(q, trace[0]);
    DrainingDoesNotFail(q, trace[0], i);
    var m := 0;
    if IsRetrying(z, i) {
      RetryFailsBehindAnError(z, trace[1..], i);
    } else {
      m := FailedOnlyBehindANewError(z, trace[1..], i);
    }
    n := m + 1;
    FailsOneLater(q, trace, i, m);
  }

  /** From a new process on. */
  lemma FailedFlushesMetANewError(trace: seq<Event>, i: nat) returns (n: nat)
    requires HasFailed(Run(START, trace), i)
    ensures n <= |trace| && FailsAfterDraining(START, trace, i, n)
  {
    n := FailedOnlyBehindANewError(START, trace, i);
  }

  /** The fields PgRelayStore keeps, and its four steps on them. */
  class PgWriteQueue {
    var version: nat
    var jobs: seq<nat>
    var done: nat
    var persistError: bool
    var durable: nat
    var flushes: seq<Flush>

    ghost function State(): Queue
      reads this
    {
      Queue(version, jobs, done, persistError, durable, flushes)
    }

    constructor ()
      ensures State() == START && Inv(State())
    {
      version, jobs, done, persistError, durable, flushes := 0, [], 0, false, 0, [];
    }

    method Enqueue()
      modifies this`jobs
      ensures jobs == old(jobs) + [version]
    {
      jobs := jobs + [version];
    }

    method OnMutation()
      requires Inv(State())
      modifies this
      ensures State() == Next(old(State()), Mutate) && Inv(State())
    {
      StepKeepsInv(State(), Mutate);
      version := version + 1;
      Enqueue();
    }

    /** The oldest pending writeSnapshot settles. */
    method SettleWrite(ok: bool)
      requires Inv(State())
      modifies this
      ensures State() == Next(old(State()), Write(ok)) && Inv(State())
    {
      StepKeepsInv(State(), Write(ok));
      if done < |jobs| {
        if ok {
          durable := jobs[done];
        } else {
          persistError := true;
        }
        done := done + 1;
      }
    }

    method CallFlush() returns (i: nat)
      requires Inv(State())
      modifies this
      ensures State() == Next(old(State()), Ask) && Inv(State()) && i == |old(flushes)|
    {
      StepKeepsInv(State(), Ask);
      i := |flushes|;
      flushes := flushes + [Flush(version, Waiting)];
    }

    method Resume(i: nat)
      requires Inv(State()) && i < |flushes|
      modifies this
      ensures State() == Next(old(State()), Wake(i)) && Inv(State())
      ensures flushes[i].phase.Returned? ==> flushes[i].asked <= durable
    {
      StepKeepsInv(State(), Wake(i));
      var f := flushes[i];
      match f.phase
      case Waiting =>
        if forall j | 0 <= j < i :: IsSettled(flushes[j]) {
          flushes := flushes[i := f.(phase := Draining(|jobs|))];
        }
      case Draining(upTo) =>
        if done >= upTo {
          if !persistError {
            flushes := flushes[i := f.(phase := Returned)];
          } else {
            persistError := false;
            Enqueue();
            flushes := flushes[i := f.(phase := Retrying(|jobs|))];
          }
        }
      case Retrying(upTo) =>
        if done >= upTo {
          flushes := flushes[i := f.(phase := if persistError then Failed else Returned)];
        }
      case _ =>
      assert FlushFits(State(), flushes[i]);
    }
  }
}
