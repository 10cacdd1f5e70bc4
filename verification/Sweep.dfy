/** The background sweep: isolated, read-only towards intents, bounded, and free to forget settled missions. */
module Sweep {
  import opened Domain
  import opened Relay
  import opened RelayService
  import opened RelaySafety
  import opened RelayRuns
  import opened Missions
  import opened MissionService
  import MissionSafety
  import opened Coordinator
  import opened System
  import opened Delivery
  import Provenance

  // ---------------------------------------------------------------- isolation

  /** Mission c is exactly where it was, in both stores and in the sweep's books. */
  ghost predicate Untouched(a: Coord, d: Coord, c: string) {
    && (c in d.missions.missions <==> c in a.missions.missions)
    && (c in d.missions.missions ==> d.missions.missions[c] == a.missions.missions[c])
    && SameAt(a.store.relay, d.store.relay, c)
    && Attempts(d, c) == Attempts(a, c) && (c in d.settled <==> c in a.settled)
  }

  ghost predicate Sane(d: Coord, p: Protector) {
    MissionSafety.Inv(d.missions, p) && RelaySafety.Inv(d.store.relay) && ArrivedIn(d.store.relay, d.missions)
  }

  lemma ReconcileStaysHome(m: MissionStore, s: Store, id: string, env: Env, p: Protector)
    requires MissionSafety.Inv(m, p) && IsSound(p) && RelaySafety.Inv(s.relay) && ArrivedIn(s.relay, m)
    ensures var (n, t, _) := MissionReconciled(m, s, id, env, p);
            && MissionSafety.Inv(n, p) && RelaySafety.Inv(t.relay) && ArrivedIn(t.relay, n)
            && n.missions.Keys == m.missions.Keys && (forall c | c in m.missions && c != id :: n.missions[c] == m.missions[c])
            && (forall c | c != id :: SameAt(s.relay, t.relay, c))
            && Provenance.IntentsFrom(s.relay, t.relay)
  {
    var (n, t, _) := MissionReconciled(m, s, id, env, p);
    var may := May(false, IsStaleAt(s.relay, id, env.at), false);
    ProjectionFollowsFlush(m, s, id, env, p);
    ReconciledMoves(s, id, env.at, env.first, env.second);
    MovesExtend(s, t, id, may);
    Provenance.MovesKeepIntents(s, t, id, may);
    if n != m {
      ProjectionIsSafe(m, t.relay, id, env.at, p, LatestClaim(m.claims, id));
      var v, wallet, at := ProjectionIsACompletion(m, t.relay, id, env.at, p, LatestClaim(m.claims, id));
      MissionSafety.CompletionKeeps(m, n, id, v, wallet, at, p);
    }
  }

  /** The stores of one mission's visit: untouched, or reconciled. */
  ghost predicate StoresStayHome(a: Coord, d: Coord, id: string) {
    && d.missions.missions.Keys == a.missions.missions.Keys
    && (forall c | c in a.missions.missions && c != id :: d.missions.missions[c] == a.missions.missions[c])
    && (forall c | c != id :: SameAt(a.store.relay, d.store.relay, c))
    && Provenance.IntentsFrom(a.store.relay, d.store.relay)
  }

  lemma VisitKeepsStores(d: Coord, plan: Plan, id: string, env: Env, p: Protector)
    requires Sane(d, p) && IsSound(p)
    ensures var e := SweepOne(d, plan, id, env, p).0; Sane(e, p) && StoresStayHome(d, e, id)
  {
    ReconcileStaysHome(d.missions, d.store, id, env, p);
    VisitIsAReconcile(d, plan, id, env, p);
  }

  lemma VisitKeepsBooks(d: Coord, plan: Plan, id: string, env: Env, p: Protector)
    ensures var e := SweepOne(d, plan, id, env, p).0;
            forall c | c != id :: Attempts(e, c) == Attempts(d, c) && (c in e.settled <==> c in d.settled)
  {
  }

  /** A visit, whatever its outcome, leaves every other mission alone and opens no intent. */
  lemma VisitStaysHome(d: Coord, plan: Plan, id: string, env: Env, p: Protector)
    requires Sane(d, p) && IsSound(p)
    ensures var e := SweepOne(d, plan, id, env, p).0;
            Sane(e, p) && (forall c | c != id :: Untouched(d, e, c)) && Provenance.IntentsFrom(d.store.relay, e.store.relay)
  {
    VisitKeepsStores(d, plan, id, env, p);
    VisitKeepsBooks(d, plan, id, env, p);
  }

  lemma UntouchedTwice(a: Coord, d: Coord, e: Coord, c: string)
    requires Untouched(a, d, c) && Untouched(d, e, c)
    ensures Untouched(a, e, c)
  {
  }

  /**
   * One mission's failure stops nothing: when its turn comes, every candidate is found exactly as the sweep began,
   * whatever happened to the missions visited before it; and no sweep creates or alters an intent.
   */
  lemma {:induction false} SweepIsolates(c: Coord, tally: Tally, plan: Plan, order: seq<string>, envs: string -> Env, p: Protector, other: string)
    requires Sane(c, p) && IsSound(p) && other !in order
    ensures var d := Swept(c, tally, plan, order, envs, p).0;
            Sane(d, p) && Untouched(c, d, other) && Provenance.IntentsFrom(c.store.relay, d.store.relay)
    decreases |order|
  {
    if |order| > 0 {
      var (d, outcome) := SweepOne(c, plan, order[0], envs(order[0]), p);
      VisitStaysHome(c, plan, order[0], envs(order[0]), p);
      assert order[0] in order;
      SweepIsolates(d, Counted(tally, outcome), plan, order[1..], envs, p, other);
      UntouchedTwice(c, d, Swept(c, tally, plan, order, envs, p).0, other);
    }
  }

  /** Every candidate is accounted for once: checked, skipped as settled, or unreadable. */
  lemma {:induction false} SweepCountsEveryCandidate(c: Coord, tally: Tally, plan: Plan, order: seq<string>, envs: string -> Env, p: Protector)
    ensures var t := Swept(c, tally, plan, order, envs, p).1;
            && t.checked + CountOutcome(c, plan, order, envs, p, Skipped) + CountOutcome(c, plan, order, envs, p, Unread)
               == tally.checked + |order|
            && t.errors == tally.errors + CountOutcome(c, plan, order, envs, p, Unread) + CountOutcome(c, plan, order, envs, p, Outcome.Failed)
            && t.arrived == tally.arrived + CountOutcome(c, plan, order, envs, p, Arrived)
    decreases |order|
  {
    if |order| > 0 {
      var (d, outcome) := SweepOne(c, plan, order[0], envs(order[0]), p);
      SweepCountsEveryCandidate(d, Counted(tally, outcome), plan, order[1..], envs, p);
    }
  }

  function CountOutcome(c: Coord, plan: Plan, order: seq<string>, envs: string -> Env, p: Protector, counted: Outcome): nat
    decreases |order|
  {
    if |order| == 0 then 0
    else
      var (d, outcome) := SweepOne(c, plan, order[0], envs(order[0]), p);
      (if outcome == counted then 1 else 0) + CountOutcome(d, plan, order[1..], envs, p, counted)
  }

  // ---------------------------------------------------------------- settled missions may be forgotten

  /** A settled mission has reached a terminal state. */
  predicate SettledOk(c: Coord) {
    forall id | id in c.settled :: id in c.missions.missions && !c.missions.missions[id].status.ACTIVE?
  }

  function WithoutSettled(order: seq<string>, settled: set<string>, pending: set<string>): seq<string> {
    if |order| == 0 then []
    else (if order[0] in settled - pending then [] else [order[0]]) + WithoutSettled(order[1..], settled, pending)
  }

  /** Visiting a settled mission that is not pending does nothing at all. */
  lemma SettledVisitIsNothing(c: Coord, plan: Plan, id: string, env: Env, p: Protector)
    requires SettledOk(c) && id in c.settled && id !in plan.pending
    ensures SweepOne(c, plan, id, env, p).0 == c
  {
    assert c.settled + {id} == c.settled;
  }

  lemma VisitKeepsSettled(c: Coord, plan: Plan, id: string, env: Env, p: Protector)
    requires Sane(c, p) && IsSound(p) && SettledOk(c)
    ensures var d := SweepOne(c, plan, id, env, p).0; SettledOk(d) && c.settled <= d.settled
  {
    VisitKeepsStores(c, plan, id, env, p);
    VisitKeepsBooks(c, plan, id, env, p);
    var d := SweepOne(c, plan, id, env, p).0;
    if id in c.settled { VisitAbsorbs(c, plan, id, env, p); }
    if id in d.settled && id !in c.settled { VisitSettlesTerminal(c, plan, id, env, p); }
  }

  lemma VisitSettlesTerminal(c: Coord, plan: Plan, id: string, env: Env, p: Protector)
    requires id !in c.settled && id in SweepOne(c, plan, id, env, p).0.settled
    ensures var m := SweepOne(c, plan, id, env, p).0.missions.missions; id in m && !m[id].status.ACTIVE?
  {
  }

  /** Terminal states are absorbing under a visit. */
  lemma VisitAbsorbs(c: Coord, plan: Plan, id: string, env: Env, p: Protector)
    requires id in c.missions.missions && !c.missions.missions[id].status.ACTIVE?
    ensures SweepOne(c, plan, id, env, p).0.missions == c.missions
  {
  }

  /** Sweeping with the settled missions left out does what sweeping with them does. */
  lemma {:induction false} SkippingSettledChangesNothing(c: Coord, t: Tally, u: Tally, plan: Plan, order: seq<string>,
                                                         settled: set<string>, envs: string -> Env, p: Protector)
    requires Sane(c, p) && IsSound(p) && SettledOk(c) && settled <= c.settled
    ensures Swept(c, t, plan, order, envs, p).0 == Swept(c, u, plan, WithoutSettled(order, settled, plan.pending), envs, p).0
    decreases |order|
  {
    if |order| > 0 {
      var id := order[0];
      var (d, outcome) := SweepOne(c, plan, id, envs(id), p);
      VisitStaysHome(c, plan, id, envs(id), p);
      VisitKeepsSettled(c, plan, id, envs(id), p);
      var rest := WithoutSettled(order[1..], settled, plan.pending);
      if id in settled - plan.pending {
        SettledVisitIsNothing(c, plan, id, envs(id), p);
        assert WithoutSettled(order, settled, plan.pending) == rest;
        SkippingSettledChangesNothing(c, Counted(t, outcome), u, plan, order[1..], settled, envs, p);
      } else {
        assert WithoutSettled(order, settled, plan.pending) == [id] + rest;
        SkippingSettledChangesNothing(d, Counted(t, outcome), Counted(u, outcome), plan, order[1..], settled, envs, p);
      }
    }
  }

  /** A visit that can read the mission and does not fail settles it exactly when it has ended, or ARRIVED while an intent is open. */
  lemma VisitSettlesExactly(d: Coord, plan: Plan, id: string, env: Env, p: Protector)
    requires env.guardRead && id in d.missions.missions
    ensures var (e, outcome) := SweepOne(d, plan, id, env, p);
            var now := e.missions.missions;
            && id in now
            && (if outcome.Failed? then e.settled == d.settled
                else id in e.settled <==> id in d.settled || now[id].status.ARRIVED? || (id !in plan.pending && !now[id].status.ACTIVE?))
  {
  }

  // ---------------------------------------------------------------- from any reachable state

  lemma ReachableIsSane(x: Sys, p: Protector)
    requires SysInv(x, p)
    ensures Sane(x.coord, p)
  {
    LiveIsGood(x, p);
  }

  lemma TerminalStaysTerminal(m: MissionStore, n: MissionStore, c: Coord, d: Coord)
    requires MissionSafety.Later(m, n) && c.missions == m && d.missions == n && d.settled == c.settled && SettledOk(c)
    ensures SettledOk(d)
  {
    forall id | id in d.settled ensures id in n.missions && !n.missions[id].status.ACTIVE? {
      assert MissionSafety.MissionLater(m.missions[id], n.missions[id]);
    }
  }

  /** Only the sweep settles missions, and a crash forgets them. */
  lemma BooksAfter(x: Sys, s: Turn, c: Crypto)
    ensures !s.event.SweepNext? && !s.event.Crash? ==> CoordAfter(x, s, c).settled == x.coord.settled
    ensures s.event.Crash? ==> CoordAfter(x, s, c).settled == {}
    ensures s.event.SweepNext? ==>
              CoordAfter(x, s, c) == SweepOne(x.coord, PlanOf(x, s.event.sweep), s.event.id, s.event.env, c.protector).0
  {
  }

  lemma ApplyKeepsSettled(x: Sys, s: Turn, c: Crypto)
    requires SysInv(x, c.protector) && IsSound(c.protector) && System.Legal(x, s) && SettledOk(x.coord)
    ensures SettledOk(Apply(x, s, c).coord)
  {
    ApplyParts(x, s, c);
    BooksAfter(x, s, c);
    ReachableIsSane(x, c.protector);
    if s.event.SweepNext? {
      VisitKeepsSettled(x.coord, PlanOf(x, s.event.sweep), s.event.id, s.event.env, c.protector);
    } else if !s.event.Crash? {
      MissionsOnlyMoveOn(x, s, c);
      TerminalStaysTerminal(x.coord.missions, Apply(x, s, c).coord.missions, x.coord, Apply(x, s, c).coord);
    }
  }

  /** In every reachable state the settled missions have ended. */
  lemma SettledHaveEnded(trace: seq<Turn>, c: Crypto)
    requires IsSound(c.protector) && LegalRun(START, trace, c)
    ensures SysInv(Run(START, trace, c), c.protector) && SettledOk(Run(START, trace, c).coord)
  {
    StartIsReady(c.protector);
    forall x: Sys, t | SysInv(x, c.protector) && System.Legal(x, t) && SettledOk(x.coord) ensures SettledOk(Apply(x, t, c).coord) {
      ApplyKeepsSettled(x, t, c);
    }
    RunKeeps(START, trace, c, [], (x: Sys, l) => SettledOk(x.coord));
  }

  /**
   * A sweep from any reachable state, over any missions in any order: leaving out the missions settled since the process
   * started changes nothing, every mission not visited is exactly where it was, and no intent is created or altered.
   */
  lemma ReachableSweeps(trace: seq<Turn>, c: Crypto, t: Tally, plan: Plan, order: seq<string>, envs: string -> Env)
    requires IsSound(c.protector) && LegalRun(START, trace, c)
    ensures var d := Run(START, trace, c).coord;
            var e := Swept(d, t, plan, order, envs, c.protector).0;
            && Swept(d, t, plan, WithoutSettled(order, d.settled, plan.pending), envs, c.protector).0 == e
            && (forall other | other !in order :: Untouched(d, e, other)) && Provenance.IntentsFrom(d.store.relay, e.store.relay)
  {
    var d := Run(START, trace, c).coord;
    SettledHaveEnded(trace, c);
    ReachableIsSane(Run(START, trace, c), c.protector);
    SweepsFrom(d, t, plan, order, envs, c.protector);
  }

  lemma SweepsFrom(d: Coord, t: Tally, plan: Plan, order: seq<string>, envs: string -> Env, p: Protector)
    requires Sane(d, p) && IsSound(p) && SettledOk(d)
    ensures var e := Swept(d, t, plan, order, envs, p).0;
            && Swept(d, t, plan, WithoutSettled(order, d.settled, plan.pending), envs, p).0 == e
            && (forall other | other !in order :: Untouched(d, e, other)) && Provenance.IntentsFrom(d.store.relay, e.store.relay)
  {
    SkippingSettledChangesNothing(d, t, t, plan, order, d.settled, envs, p);
    forall other | other !in order
      ensures var e := Swept(d, t, plan, order, envs, p).0;
              Untouched(d, e, other)
    {
      SweepIsolates(d, t, plan, order, envs, p, other);
    }
    SweepIsolates(d, t, plan, order, envs, p, Longer(order));
  }

  /** A string longer than every one of the list. */
  function Longer(order: seq<string>): (r: string)
    ensures forall s | s in order :: |s| < |r|
  {
    if |order| == 0 then "x" else
      var rest := Longer(order[1..]);
      if |order[0]| < |rest| then rest else order[0] + "x"
  }

  // ---------------------------------------------------------------- repairs per process

  /** The visit will re-read the chain for a hash marked INVALID: known before it starts. */
  predicate IsRepair(c: Coord, plan: Plan, id: string, env: Env) {
    id in plan.invalid
    && (id in plan.pending || (env.guardRead && id in c.missions.missions && c.missions.missions[id].status.ACTIVE?))
  }

  /** That guard decides whether the visit reaches the chain and whether it is booked; arriving clears the book. */
  lemma VisitRepairsExactlyWhen(d: Coord, plan: Plan, id: string, env: Env, p: Protector)
    ensures var (e, outcome) := SweepOne(d, plan, id, env, p);
            && (IsRepair(d, plan, id, env) <==> id in plan.invalid && outcome !in {Unread, Skipped})
            && (if outcome.Arrived? then Attempts(e, id) == 0 && id in e.missions.missions && e.missions.missions[id].status.ARRIVED?
                else Attempts(e, id) == Attempts(d, id) + if IsRepair(d, plan, id, env) then 1 else 0)
  {
  }

  /** Repairs of one mission since the process started. */
  function CountRepair(n: nat, x: Sys, t: Turn, id: string): nat {
    match t.event
    case Crash(_) => 0
    case SweepNext(k, visited, env) => if visited == id && IsRepair(x.coord, PlanOf(x, k), id, env) then n + 1 else n
    case _ => n
  }

  function Repairs(n: nat, x: Sys, trace: seq<Turn>, c: Crypto, id: string): nat
    decreases |trace|
  {
    if |trace| == 0 then n else Repairs(CountRepair(n, x, trace[0], id), Apply(x, trace[0], c), trace[1..], c, id)
  }

  /** Sweeps that have candidates left to visit. */
  function Running(sweeps: seq<System.Sweep>): nat {
    if |sweeps| == 0 then 0 else (if sweeps[0].todo != {} then 1 else 0) + Running(sweeps[1..])
  }

  predicate Awaits(w: System.Sweep, id: string) {
    id in w.todo && id in w.plan.invalid
  }

  /** Sweeps that may still repair the mission. */
  function Awaiting(sweeps: seq<System.Sweep>, id: string): nat {
    if |sweeps| == 0 then 0 else (if Awaits(sweeps[0], id) then 1 else 0) + Awaiting(sweeps[1..], id)
  }

  /** At most limit sweeps run at once. */
  predicate NeverMoreThan(x: Sys, trace: seq<Turn>, c: Crypto, limit: nat)
    decreases |trace|
  {
    |trace| > 0 ==> Running(Apply(x, trace[0], c).sweeps) <= limit && NeverMoreThan(Apply(x, trace[0], c), trace[1..], c, limit)
  }

  lemma {:induction false} AwaitingAreRunning(sweeps: seq<System.Sweep>, id: string)
    ensures Awaiting(sweeps, id) <= Running(sweeps)
  {
    if |sweeps| > 0 { AwaitingAreRunning(sweeps[1..], id); }
  }

  lemma {:induction false} OneMoreSweep(sweeps: seq<System.Sweep>, w: System.Sweep, id: string)
    ensures Awaiting(sweeps + [w], id) == Awaiting(sweeps, id) + if Awaits(w, id) then 1 else 0
    ensures Running(sweeps + [w]) == Running(sweeps) + if w.todo != {} then 1 else 0
  {
    if |sweeps| == 0 {
      assert sweeps + [w] == [w];
    } else {
      assert (sweeps + [w])[1..] == sweeps[1..] + [w];
      OneMoreSweep(sweeps[1..], w, id);
    }
  }

  lemma {:induction false} OneVisitLess(sweeps: seq<System.Sweep>, k: nat, visited: string, id: string)
    requires k < |sweeps| && visited in sweeps[k].todo
    ensures Awaiting(Visited(sweeps, k, visited), id)
         == Awaiting(sweeps, id) - if visited == id && id in sweeps[k].plan.invalid then 1 else 0
    ensures Running(Visited(sweeps, k, visited)) <= Running(sweeps)
  {
    var after := Visited(sweeps, k, visited);
    if k == 0 {
      assert after[1..] == sweeps[1..];
    } else {
      assert after[1..] == Visited(sweeps[1..], k - 1, visited);
      OneVisitLess(sweeps[1..], k - 1, visited, id);
    }
  }

  predicate IsArrived(x: Sys, id: string) {
    id in x.coord.missions.missions && x.coord.missions.missions[id].status.ARRIVED?
  }

  /** The book counts every repair until the mission has ARRIVED; made and outstanding repairs stay within the limit. */
  predicate RepairsBooked(x: Sys, n: nat, id: string, limit: nat) {
    && (IsArrived(x, id) || n == Attempts(x.coord, id))
    && n + Awaiting(x.sweeps, id) <= 2 + limit
  }

  lemma ArrivedStays(x: Sys, t: Turn, c: Crypto, id: string)
    requires SysInv(x, c.protector) && IsSound(c.protector) && System.Legal(x, t) && IsArrived(x, id)
    ensures IsArrived(Apply(x, t, c), id)
  {
    MissionsOnlyMoveOn(x, t, c);
    assert MissionSafety.MissionLater(x.coord.missions.missions[id], Apply(x, t, c).coord.missions.missions[id]);
  }

  /** A repair candidate has an intent, so it has not ARRIVED and its book counts at most two repairs. */
  lemma CandidatesAreBooked(x: Sys, n: nat, p: Protector, id: string, limit: nat)
    requires SysInv(x, p) && RepairsBooked(x, n, id, limit) && id in SweepPlan(x.coord).invalid
    ensures !IsArrived(x, id) && n <= 2
  {
    LiveIsGood(x, p);
    if IsArrived(x, id) { FinalClosesTheMission(x.coord.store.relay, x.coord.missions, id, p); }
  }

  /** The sweeps after one more has started. */
  function Started(x: Sys): seq<System.Sweep> {
    x.sweeps + [Sweep(SweepPlan(x.coord), Candidates(SweepPlan(x.coord)))]
  }

  lemma StartOnlyStarts(x: Sys, t: Turn, c: Crypto)
    requires t.event.BeginSweep?
    ensures Apply(x, t, c).sweeps == Started(x) && Apply(x, t, c).coord == x.coord
  {
  }

  lemma OneMoreAwaits(x: Sys, id: string, n: nat, limit: nat)
    requires Running(Started(x)) <= limit && n + Awaiting(x.sweeps, id) <= 2 + limit
    requires id in SweepPlan(x.coord).invalid ==> n <= 2
    ensures n + Awaiting(Started(x), id) <= 2 + limit
  {
    OneMoreSweep(x.sweeps, Sweep(SweepPlan(x.coord), Candidates(SweepPlan(x.coord))), id);
    AwaitingAreRunning(Started(x), id);
  }

  lemma StartKeepsBooked(x: Sys, n: nat, t: Turn, c: Crypto, id: string, limit: nat)
    requires t.event.BeginSweep? && RepairsBooked(x, n, id, limit) && Running(Apply(x, t, c).sweeps) <= limit
    requires id in SweepPlan(x.coord).invalid ==> n <= 2
    ensures RepairsBooked(Apply(x, t, c), n, id, limit)
  {
    StartOnlyStarts(x, t, c);
    OneMoreAwaits(x, id, n, limit);
  }

  /** A visit turns an outstanding repair into a made one, or drops it. */
  lemma VisitKeepsBooked(x: Sys, n: nat, t: Turn, c: Crypto, id: string, limit: nat)
    requires t.event.SweepNext? && t.event.sweep < |x.sweeps| && t.event.id in x.sweeps[t.event.sweep].todo
    requires RepairsBooked(x, n, id, limit) && (IsArrived(x, id) ==> IsArrived(Apply(x, t, c), id))
    ensures RepairsBooked(Apply(x, t, c), CountRepair(n, x, t, id), id, limit)
  {
    var plan := PlanOf(x, t.event.sweep);
    OneVisitLess(x.sweeps, t.event.sweep, t.event.id, id);
    VisitRepairsExactlyWhen(x.coord, plan, t.event.id, t.event.env, c.protector);
    VisitKeepsBooks(x.coord, plan, t.event.id, t.event.env, c.protector);
  }

  lemma OtherStepsKeepBooked(x: Sys, n: nat, t: Turn, c: Crypto, id: string, limit: nat)
    requires !t.event.SweepNext? && !t.event.BeginSweep? && RepairsBooked(x, n, id, limit)
    requires IsArrived(x, id) ==> IsArrived(Apply(x, t, c), id)
    ensures RepairsBooked(Apply(x, t, c), CountRepair(n, x, t, id), id, limit)
  {
  }

  lemma StepKeepsBooked(x: Sys, n: nat, t: Turn, c: Crypto, id: string, limit: nat)
    requires SysInv(x, c.protector) && IsSound(c.protector) && System.Legal(x, t) && RepairsBooked(x, n, id, limit)
    requires Running(Apply(x, t, c).sweeps) <= limit
    ensures RepairsBooked(Apply(x, t, c), CountRepair(n, x, t, id), id, limit)
  {
    if IsArrived(x, id) { ArrivedStays(x, t, c, id); }
    if t.event.SweepNext? {
      VisitKeepsBooked(x, n, t, c, id, limit);
    } else if t.event.BeginSweep? {
      if id in SweepPlan(x.coord).invalid { CandidatesAreBooked(x, n, c.protector, id, limit); }
      StartKeepsBooked(x, n, t, c, id, limit);
    } else {
      OtherStepsKeepBooked(x, n, t, c, id, limit);
    }
  }

  /** With at most limit sweeps at a time, a process repairs one mission's INVALID broadcast at most 2 + limit times. */
  lemma {:induction false} RepairsAreBounded(x: Sys, n: nat, trace: seq<Turn>, c: Crypto, id: string, limit: nat)
    requires SysInv(x, c.protector) && IsSound(c.protector) && LegalRun(x, trace, c) && RepairsBooked(x, n, id, limit)
    requires NeverMoreThan(x, trace, c, limit)
    ensures Repairs(n, x, trace, c, id) <= 2 + limit
    decreases |trace|
  {
    if |trace| > 0 {
      StepKeepsBooked(x, n, trace[0], c, id, limit);
      ApplyKeepsSysInv(x, trace[0], c);
      RepairsAreBounded(Apply(x, trace[0], c), CountRepair(n, x, trace[0], id), trace[1..], c, id, limit);
    }
  }

  /** The promised three hold for every run in which sweeps do not overlap. */
  lemma AtMostThreeRepairs(trace: seq<Turn>, c: Crypto, id: string)
    requires IsSound(c.protector) && LegalRun(START, trace, c) && NeverMoreThan(START, trace, c, 1)
    ensures Repairs(0, START, trace, c, id) <= 3
  {
    StartIsReady(c.protector);
    RepairsAreBounded(START, 0, trace, c, id, 1);
  }
}
