/** What a mission can rely on: one FINAL payment to its destination, for good, and a projection that catches up. */
module Delivery {
  import opened Domain
  import opened Relay
  import opened RelayService
  import opened RelaySafety
  import opened RelayRuns
  import opened PgRelayTables
  import opened Missions
  import opened MissionService
  import MissionSafety
  import opened MissionOps
  import opened Coordinator
  import opened System

  // ---------------------------------------------------------------- one FINAL hop, exactly what was agreed

  /** The only FINAL hop a mission can have: 100,000 Luna, hashed and confirmed, from its creator to its destination. */
  predicate IsDelivery(b: string, h: Hop, m: MissionStore, p: Protector) {
    && b in m.missions && h.batonId == b && h.sequence == 1
    && h.value == Some(100_000) && IsGiven(h.txHash) && h.confirmedAt.Some?
    && h.currentHolder == m.missions[b].creator && MissionSafety.Target(m.missions[b], p) == Some(h.recipient)
    && h.recipient != h.currentHolder
  }

  /** In every reachable state a mission has at most one FINAL hop, it is the agreed delivery, and no hash pays twice. */
  lemma DeliveredOnceAsAgreed(x: Sys, p: Protector)
    requires SysInv(x, p)
    ensures var hops := x.coord.store.relay.hops;
            && (forall b, k | IsFinal(hops, b, k) :: k == 1 && IsDelivery(b, GetHop(hops, b, k).value, x.coord.missions, p))
            && (forall b, k, c, l | ShareHash(GetHop(hops, b, k), GetHop(hops, c, l)) :: b == c && k == l)
  {
    LiveIsGood(x, p);
    var r := x.coord.store.relay;
    forall b, k | IsFinal(r.hops, b, k) ensures k == 1 && IsDelivery(b, GetHop(r.hops, b, k).value, x.coord.missions, p) {
      SlotHolds(r.hops, b, k);
      assert HopLinked(GetHop(r.hops, b, k).value, x.coord.missions, p);
      assert MissionSafety.MissionOk(b, x.coord.missions.missions[b], p);
    }
  }

  /** A bound mission whose recorded relay holder is not its creator accepts no authorization. */
  lemma MovedHolderRefuses(m: MissionStore, s: Store, q: AuthorizeRequest, nonce: string, at: int, c: Crypto, flushed: bool)
    requires q.missionId in m.missions ==>
               && MissionSafety.MissionOk(q.missionId, m.missions[q.missionId], c.protector)
               && q.missionId !in s.relay.intents && q.missionId in s.relay.holders
               && s.relay.holders[q.missionId] != m.missions[q.missionId].creator
    ensures var (t, res) := Authorized(m, s, q, nonce, at, c.sha, c.protector, flushed); res.Err? && t == s
  {
  }

  /** Once FINAL, authorizing always fails and changes nothing, whoever asks and however it is signed. */
  lemma NothingOpensAfterFinal(x: Sys, q: AuthorizeRequest, nonce: string, at: int, c: Crypto, flushed: bool)
    requires SysInv(x, c.protector) && IsFinal(x.coord.store.relay.hops, q.missionId, 1)
    ensures var (t, res) := Authorized(x.coord.missions, x.coord.store, q, nonce, at, c.sha, c.protector, flushed);
            res.Err? && t == x.coord.store
  {
    LiveIsGood(x, c.protector);
    var m, r := x.coord.missions, x.coord.store.relay;
    if q.missionId in m.missions { FinalClosesTheMission(r, m, q.missionId, c.protector); }
    MovedHolderRefuses(m, x.coord.store, q, nonce, at, c, flushed);
  }

  /** The FINAL hop h of b is in every snapshot that the tables hold or may still get. */
  ghost predicate Holds(r: Relay, b: string, h: Hop) {
    IsFinal(r.hops, b, 1) && SameHop(h, GetHop(r.hops, b, 1).value)
  }

  ghost predicate DurablyFinal(x: Sys, b: string, h: Hop) {
    h.status.FINAL? && forall i | x.persisted <= i < |x.coord.store.journal| :: Holds(x.coord.store.journal[i], b, h)
  }

  lemma HoldsLater(a: Relay, r: Relay, b: string, h: Hop)
    requires Holds(a, b, h) && Later(a, r)
    ensures Holds(r, b, h)
  {
  }

  predicate IsPrefix(was: seq<Relay>, now: seq<Relay>) {
    |was| <= |now| && now[..|was|] == was
  }

  lemma FrozenExtends(s: Store, id: string, candidates: seq<string>, at: int, rpc: Rpc)
    requires RelaySafety.Inv(s.relay)
    ensures IsPrefix(s.journal, FrozenVerified(s, id, candidates, at, rpc).0.journal)
  {
    FrozenVerifiedMoves(s, id, candidates, at, rpc);
  }

  lemma RecordExtends(s: Store, id: string, hash: TxHash, at: int)
    requires RelaySafety.Inv(s.relay)
    ensures IsPrefix(s.journal, RecordedBroadcast(s, id, hash, at).0.journal)
  {
    RecordedBroadcastMoves(s, id, hash, at);
  }

  lemma StoreExtends(x: Sys, s: Turn, c: Crypto)
    requires RelaySafety.Inv(x.coord.store.relay) && MissionSafety.Inv(x.coord.missions, c.protector) && !s.event.Crash?
    ensures IsPrefix(x.coord.store.journal, StoreAfter(x, s, c).journal)
  {
    var m, store := x.coord.missions, x.coord.store;
    match s.event
    case Authorize(q, nonce, flushed) => AuthorizedExtends(store, m, q, nonce, s.at, c, flushed);
    case FreezeRails(id, candidates, rpc, _) => FrozenExtends(store, id, candidates, s.at, rpc);
    case RecordHash(k, _) => if k < |x.calls| { RecordExtends(store, x.calls[k].id, x.calls[k].hash, s.at); }
    case Reconcile(id, env) => ReconciledExtends(m, store, id, env, c.protector);
    case SweepNext(k, id, env) =>
      VisitIsAReconcile(x.coord, PlanOf(x, k), id, env, c.protector);
      ReconciledExtends(m, store, id, env, c.protector);
    case _ =>
  }

  lemma PersistedGrows(y: Sys, s: Turn, flushed: bool)
    requires y.persisted < |y.coord.store.journal| && !s.event.Crash? && (s.event.Persist? ==> y.persisted <= s.event.version)
    ensures y.persisted <= WrittenAfter(y, s, flushed).persisted
  {
  }

  /** Everything but a crash extends the journal and never writes an older snapshot. */
  lemma ApplyExtendsJournal(x: Sys, s: Turn, c: Crypto)
    requires SysInv(x, c.protector) && System.Legal(x, s) && !s.event.Crash?
    ensures IsPrefix(x.coord.store.journal, Apply(x, s, c).coord.store.journal) && x.persisted <= Apply(x, s, c).persisted
  {
    LiveIsValid(x, c.protector);
    StoreExtends(x, s, c);
    PersistedGrows(WithStore(x, StoreAfter(x, s, c)), s, FlushReturns(x, s));
    ApplyParts(x, s, c);
  }

  lemma LiveIsValid(x: Sys, p: Protector)
    requires SysInv(x, p)
    ensures RelaySafety.Inv(x.coord.store.relay) && MissionSafety.Inv(x.coord.missions, p)
  {
    LiveIsGood(x, p);
  }

  lemma AuthorizedExtends(s: Store, m: MissionStore, q: AuthorizeRequest, nonce: string, at: int, c: Crypto, flushed: bool)
    requires MissionSafety.Inv(m, c.protector)
    ensures IsPrefix(s.journal, Authorized(m, s, q, nonce, at, c.sha, c.protector, flushed).0.journal)
  {
    var request := AuthorizedShape(s, m, q, nonce, at, c, flushed);
    var t := Authorized(m, s, q, nonce, at, c.sha, c.protector, flushed).0;
    if t != s { AuthorizationExtends(s, t, request, nonce, at, c.sha); }
  }

  lemma ReconciledExtends(m: MissionStore, s: Store, id: string, env: Env, p: Protector)
    requires RelaySafety.Inv(s.relay)
    ensures IsPrefix(s.journal, MissionReconciled(m, s, id, env, p).1.journal)
  {
    ProjectionFollowsFlush(m, s, id, env, p);
    ReconciledMoves(s, id, env.at, env.first, env.second);
  }

  /** Missions are never removed; creators, bound destinations and terminal states never change. */
  lemma MissionsOnlyMoveOn(x: Sys, s: Turn, c: Crypto)
    requires SysInv(x, c.protector) && IsSound(c.protector) && System.Legal(x, s)
    ensures MissionSafety.Later(x.coord.missions, Apply(x, s, c).coord.missions)
  {
    var p := c.protector;
    var m, store := x.coord.missions, x.coord.store;
    LiveIsGood(x, p);
    MissionSafety.NothingKeeps(m, p);
    match s.event
    case Op(op) => OpKeeps(m, store.relay, op, s.at, p);
    case Reconcile(id, env) => ReconcileMovesMissionsOn(m, store, id, env, p);
    case SweepNext(k, id, env) =>
      ReconcileMovesMissionsOn(m, store, id, env, p);
      VisitIsAReconcile(x.coord, PlanOf(x, k), id, env, p);
    case _ =>
  }

  lemma ReconcileMovesMissionsOn(m: MissionStore, s: Store, id: string, env: Env, p: Protector)
    requires MissionSafety.Inv(m, p) && IsSound(p) && Good(s.relay, m, p)
    ensures MissionSafety.Later(m, MissionReconciled(m, s, id, env, p).0)
  {
    var (n, t, _) := MissionReconciled(m, s, id, env, p);
    MissionSafety.NothingKeeps(m, p);
    ProjectionFollowsFlush(m, s, id, env, p);
    if n != m {
      ReconciledMoves(s, id, env.at, env.first, env.second);
      MovesExtend(s, t, id, May(false, IsStaleAt(s.relay, id, env.at), false));
      ProjectionIsSafe(m, t.relay, id, env.at, p, LatestClaim(m.claims, id));
    }
  }

  /** From a mission's creation on: ARRIVED and CANCELLED are absorbing and the destination is bound at most once. */
  lemma MissionsMoveOneWay(x: Sys, trace: seq<Turn>, c: Crypto)
    requires SysInv(x, c.protector) && IsSound(c.protector) && LegalRun(x, trace, c)
    ensures MissionSafety.Later(x.coord.missions, Run(x, trace, c).coord.missions)
  {
    var m := x.coord.missions;
    MissionSafety.NothingKeeps(m, c.protector);
    forall y: Sys, t: Turn | SysInv(y, c.protector) && System.Legal(y, t) && MissionSafety.Later(m, y.coord.missions)
      ensures MissionSafety.Later(m, Apply(y, t, c).coord.missions)
    {
      MissionsOnlyMoveOn(y, t, c);
      MissionSafety.LaterIsTransitive(m, y.coord.missions, Apply(y, t, c).coord.missions);
    }
    RunKeeps(x, trace, c, [], (y: Sys, l: seq<Turn>) => MissionSafety.Later(m, y.coord.missions));
  }

  /** In every reachable state a mission has ARRIVED exactly at sequence and hop count 1, and has at most one live claim. */
  lemma MissionShape(x: Sys, p: Protector, id: string)
    requires SysInv(x, p) && id in x.coord.missions.missions
    ensures var m := x.coord.missions.missions[id];
            && (m.status.ARRIVED? <==> m.currentSequence == 1 && m.finalizedHopCount == 1)
            && (!m.status.ARRIVED? ==> m.currentSequence == 0 && m.finalizedHopCount == 0 && m.currentHolder == m.creator)
    ensures forall i, j | 0 <= i < j < |x.coord.missions.claims| && x.coord.missions.claims[i].missionId == x.coord.missions.claims[j].missionId ::
              !MissionSafety.IsLiveClaim(x.coord.missions.claims[i])
  {
    assert MissionSafety.MissionOk(id, x.coord.missions.missions[id], p);
  }

  lemma {:induction false} HoldsAlong(journal: seq<Relay>, from: nat, last: nat, b: string, h: Hop)
    requires forall i, k | 0 <= i && k == i + 1 && k < |journal| :: Later(journal[i], journal[k])
    requires last < |journal| && forall i | from <= i <= last :: Holds(journal[i], b, h)
    requires Holds(journal[last], b, h)
    ensures forall i | from <= i < |journal| :: Holds(journal[i], b, h)
  {
    forall i | from <= i < |journal| ensures Holds(journal[i], b, h) {
      if last < i {
        LaterAlongJournal(journal, last, i);
        HoldsLater(journal[last], journal[i], b, h);
      }
    }
  }

  lemma JournalIsChained(x: Sys, p: Protector)
    requires SysInv(x, p)
    ensures forall i, k | 0 <= i && k == i + 1 && k < |x.coord.store.journal| ::
              Later(x.coord.store.journal[i], x.coord.store.journal[k])
  {
  }

  lemma QuietStepKeepsDurableFinal(x: Sys, y: Sys, p: Protector, b: string, h: Hop)
    requires SysInv(y, p) && x.persisted < |x.coord.store.journal| && DurablyFinal(x, b, h)
    requires var was, now := x.coord.store.journal, y.coord.store.journal;
             |was| <= |now| && now[..|was|] == was && x.persisted <= y.persisted
    ensures DurablyFinal(y, b, h)
  {
    var was, now := x.coord.store.journal, y.coord.store.journal;
    JournalIsChained(y, p);
    assert forall i | 0 <= i < |was| :: now[i] == was[i];
    HoldsAlong(now, x.persisted, |was| - 1, b, h);
  }

  lemma CrashKeepsDurableFinal(x: Sys, r: Relay, p: Protector, b: string, h: Hop)
    requires SysInv(x, p) && LoadedFrom(x.db, r) && DurablyFinal(x, b, h)
    ensures Holds(r, b, h)
  {
    var kept := x.coord.store.journal[x.persisted];
    assert Holds(kept, b, h);
    ReloadIsGood(x, kept, r, p);
  }

  lemma CrashStepKeepsDurableFinal(x: Sys, s: Turn, c: Crypto, b: string, h: Hop)
    requires SysInv(x, c.protector) && System.Legal(x, s) && s.event.Crash? && DurablyFinal(x, b, h)
    ensures DurablyFinal(Apply(x, s, c), b, h)
  {
    CrashKeepsDurableFinal(x, s.event.reloaded, c.protector, b, h);
    CrashApplies(x, s, c);
    ReloadedIsDurable(Apply(x, s, c), s.event.reloaded, b, h);
  }

  lemma ReloadedIsDurable(y: Sys, r: Relay, b: string, h: Hop)
    requires y.coord.store == Store(r, [r]) && Holds(r, b, h) && h.status.FINAL?
    ensures DurablyFinal(y, b, h)
  {
  }

  lemma ApplyKeepsDurableFinal(x: Sys, s: Turn, c: Crypto, b: string, h: Hop)
    requires SysInv(x, c.protector) && SysInv(Apply(x, s, c), c.protector) && System.Legal(x, s) && DurablyFinal(x, b, h)
    ensures DurablyFinal(Apply(x, s, c), b, h)
  {
    if s.event.Crash? {
      CrashStepKeepsDurableFinal(x, s, c, b, h);
    } else {
      ApplyExtendsJournal(x, s, c);
      QuietStepKeepsDurableFinal(x, Apply(x, s, c), c.protector, b, h);
    }
  }

  /**
   * A FINAL hop that was flushed stays through every run, crashes included: same payment, still the mission's only one.
   */
  lemma FlushedFinalIsForever(x: Sys, trace: seq<Turn>, c: Crypto, b: string, h: Hop)
    requires SysInv(x, c.protector) && IsSound(c.protector) && LegalRun(x, trace, c) && DurablyFinal(x, b, h)
    ensures var r := Run(x, trace, c).coord.store.relay;
            Holds(r, b, h) && b !in r.intents && forall k | IsFinal(r.hops, b, k) :: k == 1
  {
    forall y: Sys, t: Turn | SysInv(y, c.protector) && System.Legal(y, t) && DurablyFinal(y, b, h) ensures DurablyFinal(Apply(y, t, c), b, h) {
      ApplyKeepsSysInv(y, t, c);
      ApplyKeepsDurableFinal(y, t, c, b, h);
    }
    RunKeeps(x, trace, c, [], (y, l) => DurablyFinal(y, b, h));
    DurableFinalIsLive(Run(x, trace, c), c.protector, b, h);
  }

  lemma DurableFinalIsLive(x: Sys, p: Protector, b: string, h: Hop)
    requires SysInv(x, p) && DurablyFinal(x, b, h)
    ensures var r := x.coord.store.relay; Holds(r, b, h) && b !in r.intents && forall k | IsFinal(r.hops, b, k) :: k == 1
  {
    LastIsLive(x, p);
    assert Holds(x.coord.store.journal[|x.coord.store.journal| - 1], b, h);
    LiveIsGood(x, p);
    DeliveredOnceAsAgreed(x, p);
    FinalClosesTheMission(x.coord.store.relay, x.coord.missions, b, p);
  }

  lemma FlushedReconcilePersistsAll(x: Sys, s: Turn, c: Crypto)
    requires SysInv(x, c.protector) && System.Legal(x, s) && s.event.Reconcile? && s.event.env.flushed
    ensures var y := Apply(x, s, c); y.persisted == |y.coord.store.journal| - 1
  {
    ApplyExtendsJournal(x, s, c);
  }

  /** An acknowledged reconcile that shows a FINAL hop has made it durable. */
  lemma ReconcileMakesFinalDurable(x: Sys, s: Turn, c: Crypto, b: string)
    requires SysInv(x, c.protector) && IsSound(c.protector) && System.Legal(x, s) && s.event.Reconcile? && s.event.env.flushed
    requires IsFinal(Apply(x, s, c).coord.store.relay.hops, b, 1)
    ensures var y := Apply(x, s, c); DurablyFinal(y, b, GetHop(y.coord.store.relay.hops, b, 1).value)
  {
    ApplyKeepsSysInv(x, s, c);
    FlushedReconcilePersistsAll(x, s, c);
    LastIsDurable(Apply(x, s, c), c.protector, b);
  }

  lemma LastIsDurable(x: Sys, p: Protector, b: string)
    requires SysInv(x, p) && x.persisted == |x.coord.store.journal| - 1 && IsFinal(x.coord.store.relay.hops, b, 1)
    ensures DurablyFinal(x, b, GetHop(x.coord.store.relay.hops, b, 1).value)
  {
    LastIsLive(x, p);
    var h := GetHop(x.coord.store.relay.hops, b, 1).value;
    HoldsItself(x.coord.store.relay, b);
    forall i | x.persisted <= i < |x.coord.store.journal| ensures Holds(x.coord.store.journal[i], b, h) {
      assert x.coord.store.journal[i] == x.coord.store.relay;
    }
  }

  lemma HoldsItself(r: Relay, b: string)
    requires IsFinal(r.hops, b, 1)
    ensures Holds(r, b, GetHop(r.hops, b, 1).value)
  {
  }

  /** The mission store never runs ahead: ARRIVED means a FINAL payment to the new holder, live and after any reload. */
  lemma ArrivedMeansPaid(x: Sys, p: Protector, id: string)
    requires SysInv(x, p) && id in x.coord.missions.missions && x.coord.missions.missions[id].status.ARRIVED?
    ensures var m, r := x.coord.missions.missions[id], x.coord.store.relay;
            IsFinal(r.hops, id, 1) && m.currentHolder == GetHop(r.hops, id, 1).value.recipient
            && id in r.holders && r.holders[id] == m.currentHolder && m.currentSequence == CurrentSequence(r.hops, id)
    ensures forall r | LoadedFrom(x.db, r) :: IsFinal(r.hops, id, 1)
  {
    LiveIsGood(x, p);
    var m, r := x.coord.missions, x.coord.store.relay;
    assert MissionSafety.MissionOk(id, m.missions[id], p);
    assert HopLinked(GetHop(r.hops, id, 1).value, m, p);
    FinalClosesTheMission(r, m, id, p);
    var s := x.coord.store.journal[x.persisted];
    assert Good(s, m, p);
    forall l | LoadedFrom(x.db, l) ensures IsFinal(l.hops, id, 1) {
      assert SurvivesReload(s, l) && SameHop(GetHop(s.hops, id, 1).value, GetHop(l.hops, id, 1).value);
    }
  }

  // ---------------------------------------------------------------- the crash window between the two stores

  predicate HasAccepted(m: MissionStore, invitationId: string, id: string) {
    var v := FindInvitation(m.invitations, invitationId);
    v.Some? && v.value.status.ACCEPTED? && v.value.missionId == id
  }

  /** A direct hop, or an introduced one whose invitation is still ACCEPTED. */
  predicate CanProject(m: MissionStore, h: Hop, id: string) {
    IsGiven(h.invitationId) ==> HasAccepted(m, h.invitationId.value, id)
  }

  /** The mission has caught up with the relay. */
  predicate HasArrived(m: MissionStore, r: Relay, id: string) {
    && id in m.missions && m.missions[id].status.ARRIVED? && id in r.holders && m.missions[id].currentHolder == r.holders[id]
    && m.missions[id].currentSequence == m.missions[id].finalizedHopCount == CurrentSequence(r.hops, id) == 1
  }

  lemma BoundMeansClaimed(m: MissionStore, id: string, p: Protector)
    requires MissionSafety.Inv(m, p) && id in m.missions && MissionSafety.IsBound(m.missions[id])
    ensures !IsUnclaimed(LatestClaim(m.claims, id))
  {
    LatestIsLatest(m.claims, id);
  }

  lemma {:induction false} LatestIsLatest(claims: seq<Claim>, id: string)
    ensures LatestClaim(claims, id).Some? ==>
              exists i :: 0 <= i < |claims| && claims[i] == LatestClaim(claims, id).value && MissionSafety.IsLatest(claims, i)
    decreases |claims|
  {
    if |claims| > 0 {
      var shorter := claims[..|claims| - 1];
      LatestIsLatest(shorter, id);
      if claims[|claims| - 1].missionId == id {
        assert MissionSafety.IsLatest(claims, |claims| - 1);
      } else if LatestClaim(shorter, id).Some? {
        var i :| 0 <= i < |shorter| && shorter[i] == LatestClaim(shorter, id).value && MissionSafety.IsLatest(shorter, i);
        forall j | i < j < |claims| ensures claims[j].missionId != claims[i].missionId {
          assert j < |shorter| ==> claims[j] == shorter[j];
        }
        assert MissionSafety.IsLatest(claims, i);
      }
    }
  }

  /** A mission still at its creator whose bound destination is the FINAL hop's recipient. */
  predicate AwaitsProjection(m: MissionStore, r: Relay, id: string, h: Hop, p: Protector) {
    && id in m.missions && FinalHop(r.hops, id, 1) == Some(h)
    && m.missions[id].status.ACTIVE? && m.missions[id].currentSequence == 0 && m.missions[id].finalizedHopCount == 0
    && m.missions[id].targetHmac == Some(p.hmac(h.recipient)) && m.missions[id].targetCiphertext.Some? && m.missions[id].targetConsent
    && !IsUnclaimed(LatestClaim(m.claims, id))
    && (forall i | 0 <= i < |m.invitations| :: m.invitations[i].sequence == 1)
  }

  lemma AwaitingProjects(m: MissionStore, r: Relay, id: string, h: Hop, now: int, p: Protector)
    requires AwaitsProjection(m, r, id, h, p)
    ensures var (n, res) := Projected(m, r, id, now, p, LatestClaim(m.claims, id));
            && (res.Ok? <==> CanProject(m, h, id))
            && (if res.Err? then n == m
                else id in n.missions && n.missions[id].status.ARRIVED? && n.missions[id].currentHolder == h.recipient
                     && n.missions[id].currentSequence == n.missions[id].finalizedHopCount == 1)
  {
    if IsGiven(h.invitationId) {
      var i := InvitationIndex(m.invitations, h.invitationId.value);
      var v := FindInvitation(m.invitations, h.invitationId.value);
      assert v.Some? ==> v.value == m.invitations[i] && v.value.id == h.invitationId.value;
    }
  }

  lemma FinalAwaitsProjection(m: MissionStore, r: Relay, id: string, p: Protector)
    requires MissionSafety.Inv(m, p) && Good(r, m, p)
    requires id in m.missions && m.missions[id].status.ACTIVE? && IsFinal(r.hops, id, 1)
    ensures AwaitsProjection(m, r, id, GetHop(r.hops, id, 1).value, p)
  {
    FinalHopIsTheSlot(r.hops, id, 1);
    assert MissionSafety.MissionOk(id, m.missions[id], p) && HopLinked(GetHop(r.hops, id, 1).value, m, p);
    BoundMeansClaimed(m, id, p);
  }

  /**
   * From any reachable state with a FINAL hop and an ACTIVE mission, one projection succeeds exactly when the hop is
   * direct or its invitation is still ACCEPTED, and then the mission has caught up; otherwise nothing changes.
   */
  lemma ProjectionSucceedsExactlyWhen(m: MissionStore, r: Relay, id: string, now: int, p: Protector)
    requires MissionSafety.Inv(m, p) && IsSound(p) && Good(r, m, p)
    requires id in m.missions && m.missions[id].status.ACTIVE? && IsFinal(r.hops, id, 1)
    ensures var (n, res) := Projected(m, r, id, now, p, LatestClaim(m.claims, id));
            && (res.Ok? <==> CanProject(m, GetHop(r.hops, id, 1).value, id))
            && (if res.Ok? then HasArrived(n, r, id) else n == m)
  {
    FinalAwaitsProjection(m, r, id, p);
    FinalClosesTheMission(r, m, id, p);
    AwaitingArrives(m, r, id, GetHop(r.hops, id, 1).value, now, p);
  }

  /** The mission a delivery has reached: one hop on, with its destination, at the time the hop was confirmed. */
  function Reached(m: Mission, h: Hop, at: int): Mission {
    m.(status := ARRIVED, currentHolder := h.recipient, currentSequence := 1, finalizedHopCount := 1, arrivedAt := Some(at), updatedAt := at)
  }

  /** Only the invitation behind the hop is closed with it. */
  predicate CompletesItsInvitation(m: MissionStore, n: MissionStore, h: Hop, at: int) {
    if !IsGiven(h.invitationId) then n.invitations == m.invitations
    else exists i :: 0 <= i < |m.invitations| && m.invitations[i].id == h.invitationId.value
                     && n.invitations == m.invitations[i := m.invitations[i].(status := COMPLETED, completedAt := Some(at), closedAt := Some(at))]
  }

  /**
   * Exactly what a projection writes: the mission one hop on at the hop's own confirmation time, its invitation completed,
   * and nothing else; a mission that is not there is an error, a terminal or unpaid one is left alone without one.
   */
  lemma ProjectionExactly(m: MissionStore, r: Relay, id: string, now: int, p: Protector)
    requires MissionSafety.Inv(m, p) && Good(r, m, p)
    ensures var (n, res) := Projected(m, r, id, now, p, LatestClaim(m.claims, id));
            var hop := GetHop(r.hops, id, 1);
            if id !in m.missions then n == m && res == Err(MISSION_NOT_FOUND)
            else if !m.missions[id].status.ACTIVE? || !IsFinal(r.hops, id, 1) then n == m && res == Ok(None)
            else if !CanProject(m, hop.value, id) then n == m && res.Err?
            else
              && res == Ok(hop) && hop.value.confirmedAt.Some?
              && var at := hop.value.confirmedAt.value;
                 && n.missions == m.missions[id := Reached(m.missions[id], hop.value, at)] && n.claims == m.claims
                 && CompletesItsInvitation(m, n, hop.value, at)
  {
    if id in m.missions && m.missions[id].status.ACTIVE? && IsFinal(r.hops, id, 1) {
      FinalAwaitsProjection(m, r, id, p);
      assert IsComplete(GetHop(r.hops, id, 1).value);
      AwaitingWrites(m, r, id, GetHop(r.hops, id, 1).value, now, p);
    } else {
      if id in m.missions { assert MissionSafety.MissionOk(id, m.missions[id], p); }
      NothingIsProjected(m, r, id, now, p);
    }
  }

  lemma NothingIsProjected(m: MissionStore, r: Relay, id: string, now: int, p: Protector)
    requires SlotsUnique(r.hops) && !(id in m.missions && m.missions[id].status.ACTIVE? && IsFinal(r.hops, id, 1))
    requires id in m.missions && m.missions[id].status.ACTIVE? ==> m.missions[id].currentSequence == 0
    ensures Projected(m, r, id, now, p, LatestClaim(m.claims, id)) == (m, if id !in m.missions then Err(MISSION_NOT_FOUND) else Ok(None))
  {
    FinalHopIsTheSlot(r.hops, id, 1);
  }

  lemma AwaitingWrites(m: MissionStore, r: Relay, id: string, h: Hop, now: int, p: Protector)
    requires AwaitsProjection(m, r, id, h, p) && h.confirmedAt.Some?
    ensures var (n, res) := Projected(m, r, id, now, p, LatestClaim(m.claims, id));
            if !CanProject(m, h, id) then n == m && res.Err?
            else
              && res == Ok(Some(h)) && n.missions == m.missions[id := Reached(m.missions[id], h, h.confirmedAt.value)] && n.claims == m.claims
              && CompletesItsInvitation(m, n, h, h.confirmedAt.value)
  {
    AwaitingProjects(m, r, id, h, now, p);
    if IsGiven(h.invitationId) && CanProject(m, h, id) {
      var i := InvitationIndex(m.invitations, h.invitationId.value);
      assert m.invitations[i].id == h.invitationId.value;
    }
  }

  lemma AwaitingArrives(m: MissionStore, r: Relay, id: string, h: Hop, now: int, p: Protector)
    requires AwaitsProjection(m, r, id, h, p) && CurrentSequence(r.hops, id) == 1 && id in r.holders && r.holders[id] == h.recipient
    ensures var (n, res) := Projected(m, r, id, now, p, LatestClaim(m.claims, id));
            (res.Ok? <==> CanProject(m, h, id)) && (if res.Ok? then HasArrived(n, r, id) else n == m)
  {
    AwaitingProjects(m, r, id, h, now, p);
  }

  /** A mission that is not ACTIVE and has no open intent is quiet: reconciling it changes neither store. */
  lemma SettledIsQuiet(m: MissionStore, s: Store, id: string, env: Env, p: Protector)
    requires id in m.missions && !m.missions[id].status.ACTIVE? && id !in s.relay.intents
    ensures MissionReconciled(m, s, id, env, p).0 == m && MissionReconciled(m, s, id, env, p).1 == s
  {
  }

  /** Crash-window repair: one undisturbed reconcile brings a delivered mission to ARRIVED, and no later one changes anything. */
  lemma CrashWindowRepair(x: Sys, id: string, env: Env, again: Env, p: Protector)
    requires SysInv(x, p) && IsSound(p) && env.flushed && env.projection && env.reread
    requires id in x.coord.missions.missions && x.coord.missions.missions[id].status.ACTIVE?
    requires IsFinal(x.coord.store.relay.hops, id, 1) && CanProject(x.coord.missions, GetHop(x.coord.store.relay.hops, id, 1).value, id)
    ensures var (n, t, res) := MissionReconciled(x.coord.missions, x.coord.store, id, env, p);
            && res.Ok? && res.value.status.ARRIVED? && HasArrived(n, t.relay, id) && t == x.coord.store
            && MissionReconciled(n, t, id, again, p).0 == n && MissionReconciled(n, t, id, again, p).1 == t
  {
    LiveIsGood(x, p);
    var m, s := x.coord.missions, x.coord.store;
    FinalClosesTheMission(s.relay, m, id, p);
    ProjectionSucceedsExactlyWhen(m, s.relay, id, env.at, p);
    SettledIsQuiet(MissionReconciled(m, s, id, env, p).0, s, id, again, p);
  }

  // ---------------------------------------------------------------- where the adapters break the repair

  lemma ReloadFillsInvitation(t: Tables, s: Relay, live: set<string>, fill: InvitationLookup, r: Relay, b: string, k: int)
    requires SlotsUnique(s.hops) && b in live && GetHop(s.hops, b, k).Some?
    requires LoadedFrom(Written(t, s, live, fill), r)
    ensures GetHop(r.hops, b, k).Some? && GetHop(r.hops, b, k).value.invitationId == Coalesce(GetHop(s.hops, b, k).value.invitationId, fill(b, k))
  {
    RowsAfterWrite(t.hops, s.hops, live, fill, b, k);
    SlotHolds(s.hops, b, k);
  }

  lemma SurvivorsProject(m: MissionStore, s: Relay, r: Relay, id: string, now: int, p: Protector)
    requires MissionSafety.Inv(m, p) && IsSound(p) && Good(r, m, p) && SurvivesReload(s, r)
    requires id in m.missions && m.missions[id].status.ACTIVE? && IsFinal(s.hops, id, 1)
    ensures Projected(m, r, id, now, p, LatestClaim(m.claims, id)).1.Ok? <==> CanProject(m, GetHop(r.hops, id, 1).value, id)
  {
    assert SameHop(GetHop(s.hops, id, 1).value, GetHop(r.hops, id, 1).value);
    ProjectionSucceedsExactlyWhen(m, r, id, now, p);
  }

  lemma ReloadedDirectProjects(m: MissionStore, t: Tables, s: Relay, fill: InvitationLookup, r: Relay, id: string, now: int, p: Protector)
    requires MissionSafety.Inv(m, p) && IsSound(p) && Good(s, m, p) && Good(r, m, p) && SurvivesReload(s, r)
    requires LoadedFrom(Written(t, s, m.missions.Keys, fill), r) && id in m.missions && m.missions[id].status.ACTIVE?
    requires IsFinal(s.hops, id, 1) && GetHop(s.hops, id, 1).value.invitationId == None
    ensures Projected(m, r, id, now, p, LatestClaim(m.claims, id)).1.Ok?
       <==> (IsGiven(fill(id, 1)) ==> HasAccepted(m, fill(id, 1).value, id))
  {
    LinkedIsLive(s, m, p);
    ReloadFillsInvitation(t, s, m.missions.Keys, fill, r, id, 1);
    SurvivorsProject(m, s, r, id, now, p);
  }

  /**
   * Writing fills a null invitation from any row of the same mission and sequence. After a crash inside the window a
   * direct delivery is therefore repaired exactly when that row does not exist or is still ACCEPTED.
   */
  lemma ReloadedDirectDeliveryProjectsExactlyWhen(x: Sys, t: Tables, fill: InvitationLookup, r: Relay, id: string, now: int, p: Protector)
    requires SysInv(x, p) && IsSound(p) && x.persisted == |x.coord.store.journal| - 1
    requires LoadedFrom(x.db, r) && LoadedFrom(Written(t, x.coord.store.relay, x.coord.missions.missions.Keys, fill), r)
    requires id in x.coord.missions.missions && x.coord.missions.missions[id].status.ACTIVE?
    requires var hops := x.coord.store.relay.hops; IsFinal(hops, id, 1) && GetHop(hops, id, 1).value.invitationId == None
    ensures Projected(x.coord.missions, r, id, now, p, LatestClaim(x.coord.missions.claims, id)).1.Ok?
       <==> (IsGiven(fill(id, 1)) ==> HasAccepted(x.coord.missions, fill(id, 1).value, id))
  {
    var m, s := x.coord.missions, x.coord.store.relay;
    LiveIsGood(x, p);
    LastIsLive(x, p);
    ReloadIsGood(x, s, r, p);
    ReloadedDirectProjects(m, t, s, fill, r, id, now, p);
  }

  // ---------------------------------------------------------------- an open intent after a reload

  lemma TablesFitTheLast(t: Tables, s: Store, from: nat, m: MissionStore, p: Protector)
    requires Ready(s, from, m, p) && Fits(t, s.journal[from])
    ensures Fits(t, s.relay)
  {
    LastOfReady(s, from, m, p);
    LaterAlongJournal(s.journal, from, |s.journal| - 1);
    assert Good(s.journal[from], m, p) && Good(s.journal[|s.journal| - 1], m, p);
    FitsLater(t, s.journal[from], s.relay);
  }

  /** The tables of a reachable state fit its live relay. */
  lemma TablesFitLive(x: Sys, p: Protector)
    requires SysInv(x, p)
    ensures Fits(x.db, x.coord.store.relay)
  {
    TablesFitTheLast(x.db, x.coord.store, x.persisted, x.coord.missions, p);
  }

  lemma ReloadedIntentIsFilled(t: Tables, s: Relay, m: MissionStore, fill: InvitationLookup, r: Relay, id: string, p: Protector)
    requires Good(s, m, p) && Fits(t, s) && LoadedFrom(Written(t, s, m.missions.Keys, fill), r) && id in s.intents
    ensures id in r.intents && r.intents[id] == IntentRow(s.intents[id], fill)
  {
    LinkedIsLive(s, m, p);
    OpenIntentsSurvive(t, s, m.missions.Keys, fill);
  }

  /** A request for the direct delivery finds the intent it opened before, or one that now looks introduced. */
  lemma FilledIntentAnswers(m: MissionStore, r: Relay, q: AuthorizeRequest, nonce: string, now: int, c: Crypto)
    requires MissionSafety.Inv(m, c.protector) && PassChecked(m, r, q) == Ok(None) && q.missionId in r.intents
    requires IntentLinked(q.missionId, r.intents[q.missionId], m, c.protector) && !IsStale(r.intents[q.missionId], q.now)
    ensures Authorized(m, Store(r, [r]), q, nonce, now, c.sha, c.protector, true).1
         == if r.intents[q.missionId].invitationId.None? then Ok(r.intents[q.missionId]) else Err(RELAY_INTENT_CONFLICT)
  {
    assert MissionSafety.MissionOk(q.missionId, m.missions[q.missionId], c.protector);
  }

  lemma FilledIntentIsUsableExactlyWhen(m: MissionStore, s: Relay, r: Relay, fill: InvitationLookup, q: AuthorizeRequest, nonce: string, now: int,
                                        c: Crypto)
    requires MissionSafety.Inv(m, c.protector) && Good(s, m, c.protector) && IsLookup(fill, m)
    requires q.missionId in s.intents && q.missionId in r.intents && r.intents[q.missionId] == IntentRow(s.intents[q.missionId], fill)
    requires s.intents[q.missionId].invitationId.None? && !IsStale(s.intents[q.missionId], q.now) && PassChecked(m, r, q) == Ok(None)
    ensures Authorized(m, Store(r, [r]), q, nonce, now, c.sha, c.protector, true).1
         == if fill(q.missionId, 1).None? then Ok(r.intents[q.missionId]) else Err(RELAY_INTENT_CONFLICT)
    ensures BroadcastChecked(m, r, q.missionId, None)
         == if fill(q.missionId, 1).None? then BroadcastChecked(m, s, q.missionId, None) else Err(DELIVERY_AUTHORIZATION_MISMATCH)
  {
    var id := q.missionId;
    assert IntentLinked(id, s.intents[id], m, c.protector);
    FilledIsLinked(id, s.intents[id], m, fill, c.protector);
    FilledIntentAnswers(m, r, q, nonce, now, c);
    FilledIntentBroadcasts(m, s, r, id, fill);
  }

  /**
   * The same column of an open direct intent is filled. When the live relay was written and reloaded, the intent can be
   * asked for and broadcast directly exactly when no invitation row fills it; otherwise authorizing conflicts and
   * broadcasting does not match.
   */
  lemma ReloadedDirectIntentIsUsableExactlyWhen(x: Sys, fill: InvitationLookup, r: Relay, q: AuthorizeRequest, nonce: string, now: int, c: Crypto)
    requires SysInv(x, c.protector) && IsLookup(fill, x.coord.missions)
    requires LoadedFrom(Written(x.db, x.coord.store.relay, x.coord.missions.missions.Keys, fill), r)
    requires var intents := x.coord.store.relay.intents;
             q.missionId in intents && intents[q.missionId].invitationId.None? && !IsStale(intents[q.missionId], q.now)
    requires PassChecked(x.coord.missions, r, q) == Ok(None)
    ensures var m := x.coord.missions;
            && q.missionId in r.intents
            && Authorized(m, Store(r, [r]), q, nonce, now, c.sha, c.protector, true).1
               == (if fill(q.missionId, 1).None? then Ok(r.intents[q.missionId]) else Err(RELAY_INTENT_CONFLICT))
            && BroadcastChecked(m, r, q.missionId, None)
               == (if fill(q.missionId, 1).None? then BroadcastChecked(m, x.coord.store.relay, q.missionId, None)
                   else Err(DELIVERY_AUTHORIZATION_MISMATCH))
  {
    var m, s := x.coord.missions, x.coord.store.relay;
    LiveIsGood(x, c.protector);
    TablesFitLive(x, c.protector);
    ReloadedIntentIsFilled(x.db, s, m, fill, r, q.missionId, c.protector);
    FilledIntentIsUsableExactlyWhen(m, s, r, fill, q, nonce, now, c);
  }

  lemma FilledIntentBroadcasts(m: MissionStore, s: Relay, r: Relay, id: string, fill: InvitationLookup)
    requires id in s.intents && id in r.intents && r.intents[id] == IntentRow(s.intents[id], fill)
    requires s.intents[id].invitationId.None? && s.intents[id].sequence == 1 && IsGiven(s.intents[id].recipientData) && s.intents[id].batonId == id
    ensures fill(id, 1).Some? ==> BroadcastChecked(m, r, id, None) == Err(DELIVERY_AUTHORIZATION_MISMATCH)
    ensures fill(id, 1).None? ==> BroadcastChecked(m, r, id, None) == BroadcastChecked(m, s, id, None)
  {
  }
}
