/** Reachable states, and what each kind of step leaves behind: the tools for exhibiting whole runs. */
module Reachability {
  import opened Domain
  import opened PaymentRails
  import opened Relay
  import opened RelayService
  import RelaySafety
  import opened RelayRuns
  import opened PgRelayTables
  import opened Missions
  import opened MissionService
  import MissionSafety
  import opened MissionOps
  import opened Coordinator
  import opened System

  ghost predicate Reachable(x: Sys, c: Crypto) {
    exists trace :: LegalRun(START, trace, c) && x == Run(START, trace, c)
  }

  lemma {:induction false} RunOneMore(x: Sys, trace: seq<Turn>, t: Turn, c: Crypto)
    requires LegalRun(x, trace, c) && Legal(Run(x, trace, c), t)
    ensures LegalRun(x, trace + [t], c) && Run(x, trace + [t], c) == Apply(Run(x, trace, c), t, c)
    decreases |trace|
  {
    if |trace| == 0 {
      assert trace + [t] == [t] && [t][1..] == [];
    } else {
      assert (trace + [t])[0] == trace[0] && (trace + [t])[1..] == trace[1..] + [t];
      RunOneMore(Apply(x, trace[0], c), trace[1..], t, c);
    }
  }

  lemma StartIsReachable(c: Crypto)
    ensures Reachable(START, c)
  {
    assert LegalRun(START, [], c) && Run(START, [], c) == START;
  }

  lemma ReachOn(x: Sys, t: Turn, c: Crypto)
    requires Reachable(x, c) && Legal(x, t)
    ensures Reachable(Apply(x, t, c), c)
  {
    var trace :| LegalRun(START, trace, c) && x == Run(START, trace, c);
    RunOneMore(START, trace, t, c);
  }

  lemma ReachableIsInStep(x: Sys, c: Crypto)
    requires Reachable(x, c) && IsSound(c.protector)
    ensures SysInv(x, c.protector)
  {
    var trace :| LegalRun(START, trace, c) && x == Run(START, trace, c);
    ReachableStatesAreInStep(trace, c);
  }

  lemma ReachableIsValid(x: Sys, c: Crypto)
    requires Reachable(x, c) && IsSound(c.protector)
    ensures RelaySafety.Inv(x.coord.store.relay) && MissionSafety.Inv(x.coord.missions, c.protector)
  {
    ReachableIsInStep(x, c);
    LiveIsGood(x, c.protector);
  }

  lemma ReachableEndsLive(x: Sys, c: Crypto)
    requires Reachable(x, c) && IsSound(c.protector)
    ensures var journal := x.coord.store.journal; |journal| > 0 && journal[|journal| - 1] == x.coord.store.relay
  {
    ReachableIsInStep(x, c);
    LastIsLive(x, c.protector);
  }

  // ---------------------------------------------------------------- where each step lands

  /** The invitation lookup of the step is the first one the tables list. */
  function At(x: Sys, e: Event, at: int): Turn {
    Turn(e, at, FirstLookup(x.coord.missions))
  }

  lemma LookupIsReal(x: Sys, c: Crypto)
    requires Reachable(x, c) && IsSound(c.protector)
    ensures IsLookup(FirstLookup(x.coord.missions), x.coord.missions)
  {
    ReachableIsInStep(x, c);
    LookupExists(x.coord.missions, c.protector);
  }

  lemma OpLands(x: Sys, op: MissionOp, at: int, c: Crypto) returns (y: Sys)
    requires Reachable(x, c) && IsSound(c.protector) && x.clock <= at && IsLegal(x.coord.missions, op)
    ensures Reachable(y, c) && y.clock == at && y.sweeps == x.sweeps && y.calls == x.calls
    ensures y.coord == x.coord.(missions := ApplyOp(x.coord.missions, x.coord.store.relay, op, at, c.protector))
    ensures Legal(x, At(x, Op(op), at)) && y == Apply(x, At(x, Op(op), at), c)
  {
    LookupIsReal(x, c);
    y := Apply(x, At(x, Op(op), at), c);
    ReachOn(x, At(x, Op(op), at), c);
  }

  lemma AuthorizeLands(x: Sys, q: AuthorizeRequest, nonce: string, at: int, flushed: bool, c: Crypto) returns (y: Sys)
    requires Reachable(x, c) && IsSound(c.protector) && x.clock <= q.now <= at && forall w | w in q.wallets :: IsNimiqAddress(w)
    ensures Reachable(y, c) && y.clock == at && y.sweeps == x.sweeps && y.calls == x.calls
    ensures y.coord == x.coord.(store := Authorized(x.coord.missions, x.coord.store, q, nonce, at, c.sha, c.protector, flushed).0)
    ensures Legal(x, At(x, Authorize(q, nonce, flushed), at)) && y == Apply(x, At(x, Authorize(q, nonce, flushed), at), c)
  {
    LookupIsReal(x, c);
    y := Apply(x, At(x, Authorize(q, nonce, flushed), at), c);
    ReachOn(x, At(x, Authorize(q, nonce, flushed), at), c);
  }

  /** A broadcast call that nothing disturbs: three steps at one instant. */
  lemma BroadcastLands(x: Sys, id: string, invitationId: Option<string>, hash: TxHash, at: int, flushed: bool, c: Crypto) returns (y: Sys)
    requires Reachable(x, c) && IsSound(c.protector) && x.clock <= at && BroadcastChecked(x.coord.missions, x.coord.store.relay, id, invitationId).Ok?
    ensures Reachable(y, c) && y.clock == at && y.sweeps == x.sweeps
    ensures y.coord == x.coord.(store := BroadcastAttached(x.coord.missions, x.coord.store, id, invitationId, hash, at, flushed).0)
  {
    var v := StartLands(x, id, invitationId, hash, at, c);
    var w := ReadLands(v, |x.calls|, at, c);
    y := RecordLands(w, |x.calls|, at, flushed, c);
  }

  lemma StartLands(x: Sys, id: string, invitationId: Option<string>, hash: TxHash, at: int, c: Crypto) returns (y: Sys)
    requires Reachable(x, c) && IsSound(c.protector) && x.clock <= at && BroadcastBegun(x.coord.store.relay, id, invitationId).Ok?
    ensures Legal(x, At(x, StartBroadcast(id, invitationId, hash), at)) && y == Apply(x, At(x, StartBroadcast(id, invitationId, hash), at), c)
    ensures Reachable(y, c) && y.clock == at && y.sweeps == x.sweeps && y.coord == x.coord
    ensures y.calls == x.calls + [Attachment(id, x.coord.store.relay.intents[id], hash, READING)]
  {
    LookupIsReal(x, c);
    y := Apply(x, At(x, StartBroadcast(id, invitationId, hash), at), c);
    ReachOn(x, At(x, StartBroadcast(id, invitationId, hash), at), c);
  }

  lemma ReadLands(x: Sys, k: nat, at: int, c: Crypto) returns (y: Sys)
    requires Reachable(x, c) && IsSound(c.protector) && x.clock <= at && k < |x.calls| && x.calls[k].stage.READING? && IsLetThrough(x, k)
    ensures Legal(x, At(x, ReadPath(k), at)) && y == Apply(x, At(x, ReadPath(k), at), c)
    ensures Reachable(y, c) && y.clock == at && y.sweeps == x.sweeps && y.coord == x.coord && y.calls == Staged(x.calls, k, RECORDING)
  {
    LookupIsReal(x, c);
    y := Apply(x, At(x, ReadPath(k), at), c);
    ReachOn(x, At(x, ReadPath(k), at), c);
  }

  lemma RecordLands(x: Sys, k: nat, at: int, flushed: bool, c: Crypto) returns (y: Sys)
    requires Reachable(x, c) && IsSound(c.protector) && x.clock <= at && k < |x.calls| && x.calls[k].stage.RECORDING?
    ensures Legal(x, At(x, RecordHash(k, flushed), at)) && y == Apply(x, At(x, RecordHash(k, flushed), at), c)
    ensures Reachable(y, c) && y.clock == at && y.sweeps == x.sweeps && y.calls == Staged(x.calls, k, OVER)
    ensures y.coord == x.coord.(store := HashRecorded(x.coord.store, x.calls[k].id, x.calls[k].hash, at, flushed).0)
  {
    LookupIsReal(x, c);
    y := Apply(x, At(x, RecordHash(k, flushed), at), c);
    ReachOn(x, At(x, RecordHash(k, flushed), at), c);
  }

  lemma ReconcileLands(x: Sys, id: string, env: Env, c: Crypto) returns (y: Sys)
    requires Reachable(x, c) && IsSound(c.protector) && x.clock <= env.at
    ensures Reachable(y, c) && y.clock == env.at && y.sweeps == x.sweeps
    ensures var (n, t, _) := MissionReconciled(x.coord.missions, x.coord.store, id, env, c.protector);
            y.coord == x.coord.(missions := n, store := t)
    ensures y == Apply(x, At(x, Reconcile(id, env), env.at), c)
  {
    LookupIsReal(x, c);
    y := Apply(x, At(x, Reconcile(id, env), env.at), c);
    ReconcileApplies(x, id, env, c);
    ReachOn(x, At(x, Reconcile(id, env), env.at), c);
  }

  lemma ReconcileApplies(x: Sys, id: string, env: Env, c: Crypto)
    ensures var (n, t, _) := MissionReconciled(x.coord.missions, x.coord.store, id, env, c.protector);
            var y := Apply(x, At(x, Reconcile(id, env), env.at), c);
            && y.clock == env.at && y.sweeps == x.sweeps && y.coord == x.coord.(missions := n, store := t)
            && (env.flushed && |t.journal| > 0 ==>
                  && y.persisted == |t.journal| - 1
                  && y.db == Written(x.db, t.journal[y.persisted], x.coord.missions.missions.Keys, FirstLookup(x.coord.missions)))
  {
    var turn := At(x, Reconcile(id, env), env.at);
    ApplyParts(x, turn, c);
    WritesLast(WithStore(x, StoreAfter(x, turn, c)), turn, FlushReturns(x, turn));
  }

  /** A flushed reconcile whose projection fails only moves the relay, and the tables follow. */
  lemma UnprojectedApplies(x: Sys, id: string, env: Env, c: Crypto)
    requires env.flushed && !env.projection
    ensures var s, y := Reconciled(x.coord.store, id, env.at, env.first, env.second).0, Apply(x, At(x, Reconcile(id, env), env.at), c);
            && y.clock == env.at && y.coord.missions == x.coord.missions && y.coord.store == s
            && (|s.journal| > 0 ==>
                  && y.persisted == |s.journal| - 1
                  && y.db == Written(x.db, s.journal[y.persisted], x.coord.missions.missions.Keys, FirstLookup(x.coord.missions)))
  {
    ReconcileApplies(x, id, env, c);
    UnprojectedKeepsMissions(x.coord.missions, x.coord.store, id, env, c.protector);
  }

  lemma UnprojectedKeepsMissions(m: MissionStore, s: Store, id: string, env: Env, p: Protector)
    requires !env.projection
    ensures MissionReconciled(m, s, id, env, p).0 == m
    ensures MissionReconciled(m, s, id, env, p).1 == Reconciled(s, id, env.at, env.first, env.second).0
  {
  }

  lemma UnprojectedLands(x: Sys, id: string, env: Env, c: Crypto) returns (y: Sys)
    requires Reachable(x, c) && IsSound(c.protector) && x.clock <= env.at && env.flushed && !env.projection
    ensures Reachable(y, c) && y.clock == env.at && y.coord.missions == x.coord.missions
    ensures y.coord.store == Reconciled(x.coord.store, id, env.at, env.first, env.second).0
    ensures |y.coord.store.journal| > 0 && y.persisted == |y.coord.store.journal| - 1
    ensures y.db == Written(x.db, y.coord.store.relay, x.coord.missions.missions.Keys, FirstLookup(x.coord.missions))
  {
    y := ReconcileLands(x, id, env, c);
    UnprojectedApplies(x, id, env, c);
    ReachableEndsLive(y, c);
  }

  lemma WritesLast(y: Sys, s: Turn, flushed: bool)
    requires !s.event.Persist? && !s.event.Crash?
    ensures flushed && |y.coord.store.journal| > 0 ==>
              && WrittenAfter(y, s, flushed).persisted == |y.coord.store.journal| - 1
              && WrittenAfter(y, s, flushed).db
                 == Written(y.db, y.coord.store.journal[|y.coord.store.journal| - 1], y.coord.missions.missions.Keys, s.fill)
  {
  }

  lemma CrashLands(x: Sys, r: Relay, at: int, c: Crypto) returns (y: Sys)
    requires Reachable(x, c) && IsSound(c.protector) && x.clock <= at && LoadedFrom(x.db, r)
    ensures Reachable(y, c) && y.clock == at && y.coord.missions == x.coord.missions && y.coord.store == Store(r, [r])
  {
    LookupIsReal(x, c);
    y := Apply(x, At(x, Crash(r), at), c);
    ReachOn(x, At(x, Crash(r), at), c);
  }

  /** The last snapshot is written in the background. */
  lemma PersistLands(x: Sys, at: int, c: Crypto) returns (y: Sys)
    requires Reachable(x, c) && IsSound(c.protector) && x.clock <= at
    ensures Reachable(y, c) && y.clock == at && y.coord == x.coord
    ensures y.db == Written(x.db, x.coord.store.relay, x.coord.missions.missions.Keys, FirstLookup(x.coord.missions))
  {
    PersistIsLegal(x, at, c);
    PersistApplies(x, at, c);
    ReachOn(x, PersistTurn(x, at), c);
    y := Apply(x, PersistTurn(x, at), c);
  }

  function PersistTurn(x: Sys, at: int): Turn
    requires |x.coord.store.journal| > 0
  {
    At(x, Persist(|x.coord.store.journal| - 1), at)
  }

  lemma PersistIsLegal(x: Sys, at: int, c: Crypto)
    requires Reachable(x, c) && IsSound(c.protector) && x.clock <= at
    ensures |x.coord.store.journal| > 0 && x.coord.store.journal[|x.coord.store.journal| - 1] == x.coord.store.relay
    ensures Legal(x, PersistTurn(x, at))
  {
    LookupIsReal(x, c);
    ReachableIsInStep(x, c);
    LastIsLive(x, c.protector);
    PersistedIsBehind(x, c.protector);
  }

  lemma PersistApplies(x: Sys, at: int, c: Crypto)
    requires |x.coord.store.journal| > 0 && x.coord.store.journal[|x.coord.store.journal| - 1] == x.coord.store.relay
    ensures var y := Apply(x, PersistTurn(x, at), c);
            && y.clock == at && y.coord == x.coord
            && y.db == Written(x.db, x.coord.store.relay, x.coord.missions.missions.Keys, FirstLookup(x.coord.missions))
  {
    ApplyParts(x, PersistTurn(x, at), c);
    assert StoreAfter(x, PersistTurn(x, at), c) == x.coord.store;
  }
}
