/** Overlapping sweeps repair as often as the bound allows. */
module RepairRuns {
  import opened Domain
  import opened PaymentRails
  import opened Relay
  import opened RelayService
  import opened RelaySafety
  import opened PgRelayTables
  import opened Missions
  import opened MissionService
  import opened Coordinator
  import opened System
  import opened Delivery
  import opened Reachability
  import opened Scenario
  import opened Sweep

  // ---------------------------------------------------------------- an INVALID broadcast

  function BrokenHop(c: Crypto): Hop {
    HopFor(IntentOf(None, 2, c), Some("h"), HopStatus.PENDING).(status := INVALID)
  }

  function BrokenRelay(c: Crypto): Relay {
    PassedRelay(None, 2, c).(hops := [BrokenHop(c)])
  }

  /** The payment as the chain shows it: one Luna short. */
  function Short(c: Crypto): Env {
    var chain := Chain(PaymentOf(IntentOf(None, 2, c)).(value := ONE_NIM_IN_LUNA - 1), 60);
    Env(4, chain, chain, true, true, true, true)
  }

  lemma ShortIsInvalid(s: Store, c: Crypto)
    requires s.relay == SentRelay(None, 2, c)
    ensures Reconciled(s, "m", 4, Short(c).first, Short(c).second).0.relay == BrokenRelay(c)
    ensures Reconciled(s, "m", 4, Short(c).first, Short(c).second).1.Err?
  {
    IntentIsDirect(None, 2, c);
    SentIsRecorded(s.relay, None, 2, c);
    var h := HopFor(IntentOf(None, 2, c), Some("h"), HopStatus.PENDING);
    assert [h][0 := BrokenHop(c)] == [BrokenHop(c)];
  }

  /** A legal run leaves mission m with a hash marked INVALID, in a process that has not swept yet. */
  lemma Broken(c: Crypto) returns (x: Sys)
    requires IsSound(c.protector)
    ensures Reachable(x, c) && IsFresh(x) && x.clock == 4 && x.coord.missions == Begun(c) && x.coord.store.relay == BrokenRelay(c)
  {
    var z := Sent(c);
    ShortIsInvalid(z.coord.store, c);
    x := ReconcileLands(z, "m", Short(c), c);
  }

  // ---------------------------------------------------------------- sweeps at work

  const PLAN := Plan({}, {}, {"m"})

  /** done sweeps are finished, open sweeps have mission m still to visit. */
  predicate AtWork(x: Sys, c: Crypto, attempts: nat, done: nat, open: nat) {
    && x.clock == 4 && x.coord.missions == Begun(c) && x.coord.store.relay == BrokenRelay(c)
    && Attempts(x.coord, "m") == attempts && |x.sweeps| == done + open
    && (forall i | 0 <= i < done :: x.sweeps[i].todo == {})
    && (forall i | done <= i < done + open :: x.sweeps[i] == System.Sweep(PLAN, {"m"}))
  }

  lemma {:induction false} OpenAreRunning(sweeps: seq<System.Sweep>, done: nat, open: nat)
    requires |sweeps| == done + open && (forall i | 0 <= i < done :: sweeps[i].todo == {})
    requires forall i | done <= i < done + open :: sweeps[i] == System.Sweep(PLAN, {"m"})
    ensures Running(sweeps) == open
    decreases |sweeps|
  {
    if |sweeps| > 0 { OpenAreRunning(sweeps[1..], if done > 0 then done - 1 else 0, if done > 0 then open else open - 1); }
  }

  lemma BrokenPlan(d: Coord, c: Crypto)
    requires d.store.relay == BrokenRelay(c) && Attempts(d, "m") < 3
    ensures SweepPlan(d) == PLAN && Candidates(PLAN) == {"m"}
  {
    IntentIsDirect(None, 2, c);
    var r := d.store.relay;
    assert GetHop([BrokenHop(c)], "m", 1) == Some(BrokenHop(c));
    assert PendingReconciliation(r) == {} && FinalizedProjection(r) == {} && RecoverableInvalid(r) == {"m"};
  }

  const BEGIN := Turn(BeginSweep, 4, (b: string, k: int) => None)

  lemma BeginKeepsWorking(x: Sys, c: Crypto, attempts: nat, done: nat, open: nat)
    requires AtWork(x, c, attempts, done, open) && attempts < 3
    ensures System.Legal(x, BEGIN) && AtWork(Apply(x, BEGIN, c), c, attempts, done, open + 1)
    ensures CountRepair(0, x, BEGIN, "m") == 0
  {
    BrokenPlan(x.coord, c);
    ApplyParts(x, BEGIN, c);
    BeginIsLegal(x, c);
    BegunAdds(x, c);
  }

  lemma BeginIsLegal(x: Sys, c: Crypto)
    requires x.clock == 4 && x.coord.missions == Begun(c)
    ensures System.Legal(x, BEGIN)
  {
  }

  lemma BegunAdds(x: Sys, c: Crypto)
    requires SweepPlan(x.coord) == PLAN && Candidates(PLAN) == {"m"}
    ensures SweepsAfter(x, BEGIN) == x.sweeps + [System.Sweep(PLAN, {"m"})] && CoordAfter(x, BEGIN, c) == x.coord
  {
  }

  /** The chain is down and so is the database: the attempt is booked and nothing else happens. */
  const SILENT := Rpc(_ => Down, Down, None, None)
  const UNLUCKY := Env(4, SILENT, SILENT, false, true, true, true)

  function Visit(k: nat): Turn {
    Turn(SweepNext(k, "m", UNLUCKY), 4, (b: string, k: int) => None)
  }

  lemma UnluckyVisit(d: Coord, c: Crypto)
    requires d.missions == Begun(c) && d.store.relay == BrokenRelay(c)
    ensures IsRepair(d, PLAN, "m", UNLUCKY)
    ensures SweepOne(d, PLAN, "m", UNLUCKY, c.protector).0 == d.(attempts := d.attempts["m" := Attempts(d, "m") + 1])
  {
    IntentIsDirect(None, 2, c);
    assert GetHop([BrokenHop(c)], "m", 1) == Some(BrokenHop(c));
  }

  lemma VisitKeepsWorking(x: Sys, c: Crypto, attempts: nat, done: nat, open: nat)
    requires AtWork(x, c, attempts, done, open) && open > 0
    ensures System.Legal(x, Visit(done)) && AtWork(Apply(x, Visit(done), c), c, attempts + 1, done + 1, open - 1)
    ensures IsRepair(x.coord, PlanOf(x, done), "m", UNLUCKY)
  {
    UnluckyVisit(x.coord, c);
    ApplyParts(x, Visit(done), c);
    VisitIsLegal(x, done, c);
    VisitedOne(x, done, c);
  }

  lemma VisitIsLegal(x: Sys, k: nat, c: Crypto)
    requires x.clock == 4 && x.coord.missions == Begun(c) && k < |x.sweeps| && "m" in x.sweeps[k].todo
    ensures System.Legal(x, Visit(k))
  {
  }

  lemma VisitedOne(x: Sys, k: nat, c: Crypto)
    requires k < |x.sweeps| && x.sweeps[k] == System.Sweep(PLAN, {"m"})
    ensures SweepsAfter(x, Visit(k)) == x.sweeps[k := System.Sweep(PLAN, {})] && PlanOf(x, k) == PLAN
    ensures CoordAfter(x, Visit(k), c) == SweepOne(x.coord, PLAN, "m", UNLUCKY, c.protector).0
  {
    assert {"m"} - {"m"} == {};
  }

  // ---------------------------------------------------------------- the run

  ghost predicate Repaired(x0: Sys, trace: seq<Turn>, c: Crypto, x: Sys, n: nat, limit: nat) {
    LegalRun(x0, trace, c) && Run(x0, trace, c) == x && Repairs(0, x0, trace, c, "m") == n && NeverMoreThan(x0, trace, c, limit)
  }

  lemma {:induction false} RepairedOn(x: Sys, trace: seq<Turn>, t: Turn, c: Crypto, n: nat, limit: nat)
    requires LegalRun(x, trace, c) && System.Legal(Run(x, trace, c), t) && NeverMoreThan(x, trace, c, limit)
    requires Running(Apply(Run(x, trace, c), t, c).sweeps) <= limit
    ensures NeverMoreThan(x, trace + [t], c, limit)
    ensures Repairs(n, x, trace + [t], c, "m") == CountRepair(Repairs(n, x, trace, c, "m"), Run(x, trace, c), t, "m")
    decreases |trace|
  {
    if |trace| == 0 {
      assert trace + [t] == [t] && [t][1..] == [];
    } else {
      assert (trace + [t])[0] == trace[0] && (trace + [t])[1..] == trace[1..] + [t];
      RepairedOn(Apply(x, trace[0], c), trace[1..], t, c, CountRepair(n, x, trace[0], "m"), limit);
    }
  }

  lemma Longer(x0: Sys, trace: seq<Turn>, t: Turn, c: Crypto, x: Sys, n: nat, limit: nat)
    requires Repaired(x0, trace, c, x, n, limit) && System.Legal(x, t) && Running(Apply(x, t, c).sweeps) <= limit
    ensures Repaired(x0, trace + [t], c, Apply(x, t, c), CountRepair(n, x, t, "m"), limit)
  {
    RunOneMore(x0, trace, t, c);
    RepairedOn(x0, trace, t, c, 0, limit);
  }

  lemma OneMoreSweepBegins(x0: Sys, trace: seq<Turn>, c: Crypto, x: Sys, n: nat, limit: nat, attempts: nat, done: nat, open: nat)
    returns (longer: seq<Turn>, y: Sys)
    requires Repaired(x0, trace, c, x, n, limit) && AtWork(x, c, attempts, done, open) && attempts < 3 && open < limit
    ensures Repaired(x0, longer, c, y, n, limit) && AtWork(y, c, attempts, done, open + 1)
  {
    BeginKeepsWorking(x, c, attempts, done, open);
    longer, y := trace + [BEGIN], Apply(x, BEGIN, c);
    OpenAreRunning(y.sweeps, done, open + 1);
    Longer(x0, trace, BEGIN, c, x, n, limit);
  }

  lemma OneMoreVisit(x0: Sys, trace: seq<Turn>, c: Crypto, x: Sys, n: nat, limit: nat, attempts: nat, done: nat, open: nat)
    returns (longer: seq<Turn>, y: Sys)
    requires Repaired(x0, trace, c, x, n, limit) && AtWork(x, c, attempts, done, open) && 0 < open <= limit
    ensures Repaired(x0, longer, c, y, n + 1, limit) && AtWork(y, c, attempts + 1, done + 1, open - 1)
  {
    VisitKeepsWorking(x, c, attempts, done, open);
    longer, y := trace + [Visit(done)], Apply(x, Visit(done), c);
    OpenAreRunning(y.sweeps, done + 1, open - 1);
    Longer(x0, trace, Visit(done), c, x, n, limit);
  }

  lemma {:induction false} ManyBegin(x0: Sys, trace: seq<Turn>, c: Crypto, x: Sys, n: nat, limit: nat, attempts: nat, done: nat, open: nat, more: nat)
    returns (longer: seq<Turn>, y: Sys)
    requires Repaired(x0, trace, c, x, n, limit) && AtWork(x, c, attempts, done, open) && attempts < 3 && open + more <= limit
    ensures Repaired(x0, longer, c, y, n, limit) && AtWork(y, c, attempts, done, open + more)
    decreases more
  {
    if more == 0 {
      longer, y := trace, x;
    } else {
      longer, y := OneMoreSweepBegins(x0, trace, c, x, n, limit, attempts, done, open);
      longer, y := ManyBegin(x0, longer, c, y, n, limit, attempts, done, open + 1, more - 1);
    }
  }

  lemma {:induction false} ManyVisit(x0: Sys, trace: seq<Turn>, c: Crypto, x: Sys, n: nat, limit: nat, attempts: nat, done: nat, open: nat)
    returns (longer: seq<Turn>, y: Sys)
    requires Repaired(x0, trace, c, x, n, limit) && AtWork(x, c, attempts, done, open) && open <= limit
    ensures Repaired(x0, longer, c, y, n + open, limit) && AtWork(y, c, attempts + open, done + open, 0)
    decreases open
  {
    if open == 0 {
      longer, y := trace, x;
    } else {
      longer, y := OneMoreVisit(x0, trace, c, x, n, limit, attempts, done, open);
      longer, y := ManyVisit(x0, longer, c, y, n + 1, limit, attempts + 1, done + 1, open - 1);
    }
  }

  /**
   * The bound is exact: with up to limit sweeps at a time there is a legal run of one process that repairs 2 + limit times.
   * Without overlap that is the promised three; a sweep that outlasts the timer's interval makes it four.
   */
  lemma OverlappingSweepsReachTheBound(c: Crypto, limit: nat) returns (x0: Sys, trace: seq<Turn>)
    requires IsSound(c.protector) && limit >= 1
    ensures Reachable(x0, c) && IsFresh(x0) && LegalRun(x0, trace, c) && NeverMoreThan(x0, trace, c, limit)
    ensures Repairs(0, x0, trace, c, "m") == 2 + limit
  {
    x0 := Broken(c);
    assert Repaired(x0, [], c, x0, 0, limit);
    var x := x0;
    trace, x := OneMoreSweepBegins(x0, [], c, x0, 0, limit, 0, 0, 0);
    trace, x := OneMoreVisit(x0, trace, c, x, 0, limit, 0, 0, 1);
    trace, x := OneMoreSweepBegins(x0, trace, c, x, 1, limit, 1, 1, 0);
    trace, x := OneMoreVisit(x0, trace, c, x, 1, limit, 1, 1, 1);
    trace, x := ManyBegin(x0, trace, c, x, 2, limit, 2, 2, 0, limit);
    trace, x := ManyVisit(x0, trace, c, x, 2, limit, 2, 2, limit);
  }
}
