/** The other side of safety: a payment made as agreed is recognised, finalised and projected. */
module HonestRun {
  import opened Domain
  import opened PaymentRails
  import opened Relay
  import opened RelayService
  import opened RelaySafety
  import opened RelayRuns
  import opened PgRelayTables
  import opened Missions
  import opened MissionService
  import MissionSafety
  import opened MissionOps
  import opened Coordinator
  import opened System
  import opened Delivery
  import RelayTheorems
  import opened Reachability
  import opened Scenario
  import Policy

  /** The transaction pays the intent from one of its frozen wallets. */
  predicate IsAsAgreed(i: PassIntent, tx: Tx) {
    && AddressKey(tx.sender) in FrozenWallets(i) && AddressKey(tx.sender) != "" && tx.sender != ""
    && AddressKey(tx.to) == AddressKey(i.recipient) && tx.value == ONE_NIM_IN_LUNA
    && i.recipientData.Some? && tx.recipientData == i.recipientData
  }

  /** The reader shows it under the recorded hash, included and past its macro block. */
  predicate IsShownFinal(env: Env, hash: string, tx: Tx) {
    && env.first.transaction(hash) == Reply(Some(tx)) && tx.blockNumber.Some? && env.second.head.Reply?
    && Policy.HasReachedFinality(tx.blockNumber, env.second.head.value, Policy.NIMIQ_POLICY)
  }

  /** A payment from any wallet of the authorization passes validation, whatever else the chain says. */
  lemma AgreedIsValid(i: PassIntent, tx: Tx, rpc: Rpc)
    requires IsAsAgreed(i, tx)
    ensures ValidateObserved(i, tx, rpc) == Ok(())
  {
  }

  lemma AgreedBecomesFinal(s: Store, id: string, env: Env, tx: Tx)
    requires RelaySafety.Inv(s.relay) && id in s.relay.intents && HasRecordedBroadcast(s.relay, id)
    requires var h := GetHop(s.relay.hops, id, s.relay.intents[id].sequence).value; IsShownFinal(env, h.txHash.value, tx)
    requires IsAsAgreed(s.relay.intents[id], tx)
    ensures var (t, res) := Reconciled(s, id, env.at, env.first, env.second);
            var i := s.relay.intents[id];
            && res.Ok? && IsFinal(t.relay.hops, id, i.sequence)
            && GetHop(t.relay.hops, id, i.sequence).value.invitationId == GetHop(s.relay.hops, id, i.sequence).value.invitationId
  {
    var i := s.relay.intents[id];
    assert IsNext(s.relay, id, i);
    AgreedIsValid(i, tx, env.second);
    var h := GetHop(s.relay.hops, id, i.sequence).value;
    PutThenGet(s.relay.hops, Patched(h, Verdict(tx, env.second.head.value, env.at)), id, i.sequence);
  }

  lemma MovesKeepGood(s: Store, t: Store, b: string, may: May, m: MissionStore, p: Protector)
    requires Good(s.relay, m, p) && Moves(s, t, b, may) && !may.opens
    ensures Good(t.relay, m, p)
  {
    forall x, y | Good(x, m, p) && Step(x, y, b, may) ensures Good(y, m, p) {
      var mut :| RelaySafety.Legal(x, mut) && BatonOf(mut) == b && Permits(may, mut) && y == Mutate(x, mut);
      MutationKeepsGood(x, mut, m, p);
    }
    MovesKeep(s, t, b, may, x => Good(x, m, p));
  }

  /** Good relays stay good over a reconcile. */
  lemma ReconcileKeepsGood(m: MissionStore, s: Store, id: string, env: Env, p: Protector)
    requires Good(s.relay, m, p)
    ensures Good(Reconciled(s, id, env.at, env.first, env.second).0.relay, m, p)
  {
    ReconciledMoves(s, id, env.at, env.first, env.second);
    MovesKeepGood(s, Reconciled(s, id, env.at, env.first, env.second).0, id, May(false, IsStaleAt(s.relay, id, env.at), false), m, p);
  }

  /** An undisturbed reconcile reports what the projection left. */
  lemma ReconcileReports(m: MissionStore, s: Store, id: string, env: Env, p: Protector)
    requires env.flushed && env.projection && env.reread && Reconciled(s, id, env.at, env.first, env.second).1.Ok?
    ensures var t := Reconciled(s, id, env.at, env.first, env.second).0;
            var (n, projected) := Projected(m, t.relay, id, env.at, p, LatestClaim(m.claims, id));
            projected.Ok? && id in n.missions ==>
              && MissionReconciled(m, s, id, env, p).0 == n && MissionReconciled(m, s, id, env, p).1 == t
              && MissionReconciled(m, s, id, env, p).2.Ok? && MissionReconciled(m, s, id, env, p).2.value.status == n.missions[id].status
  {
  }

  /** Once the relay part has made the direct hop FINAL, the rest of an undisturbed reconcile arrives. */
  lemma FinalReconcileArrives(m: MissionStore, s: Store, id: string, env: Env, p: Protector)
    requires MissionSafety.Inv(m, p) && IsSound(p) && env.flushed && env.projection && env.reread
    requires id in m.missions && m.missions[id].status.ACTIVE?
    requires var (t, res) := Reconciled(s, id, env.at, env.first, env.second);
             res.Ok? && Good(t.relay, m, p) && IsFinal(t.relay.hops, id, 1) && CanProject(m, GetHop(t.relay.hops, id, 1).value, id)
    ensures var (n, t, res) := MissionReconciled(m, s, id, env, p); res.Ok? && res.value.status.ARRIVED? && HasArrived(n, t.relay, id)
  {
    ProjectionSucceedsExactlyWhen(m, Reconciled(s, id, env.at, env.first, env.second).0.relay, id, env.at, p);
    ReconcileReports(m, s, id, env, p);
  }

  /** A payment that can be projected: made as agreed, under the hash the open intent's slot holds, and final on the chain. */
  predicate IsSettleable(m: MissionStore, r: Relay, id: string, env: Env, tx: Tx) {
    && id in r.intents && HasRecordedBroadcast(r, id) && IsAsAgreed(r.intents[id], tx)
    && var h := GetHop(r.hops, id, r.intents[id].sequence).value; CanProject(m, h, id) && IsShownFinal(env, h.txHash.value, tx)
  }

  lemma SettleableArrives(m: MissionStore, s: Store, id: string, env: Env, tx: Tx, p: Protector)
    requires MissionSafety.Inv(m, p) && Good(s.relay, m, p) && IsSound(p) && env.flushed && env.projection && env.reread
    requires id in m.missions && m.missions[id].status.ACTIVE? && IsSettleable(m, s.relay, id, env, tx)
    ensures var (n, t, res) := MissionReconciled(m, s, id, env, p); res.Ok? && res.value.status.ARRIVED? && HasArrived(n, t.relay, id)
  {
    assert IntentLinked(id, s.relay.intents[id], m, p);
    AgreedBecomesFinal(s, id, env, tx);
    ReconcileKeepsGood(m, s, id, env, p);
    FinalReconcileArrives(m, s, id, env, p);
  }

  /**
   * From any reachable state, a recorded payment that was made as agreed, direct or along a still accepted invitation, and is
   * final on the chain brings its ACTIVE mission to ARRIVED in one undisturbed reconcile.
   */
  lemma AgreedPaymentArrives(x: Sys, id: string, env: Env, tx: Tx, p: Protector)
    requires SysInv(x, p) && IsSound(p) && env.flushed && env.projection && env.reread
    requires id in x.coord.missions.missions && x.coord.missions.missions[id].status.ACTIVE?
    requires IsSettleable(x.coord.missions, x.coord.store.relay, id, env, tx)
    ensures var (n, t, res) := MissionReconciled(x.coord.missions, x.coord.store, id, env, p);
            res.Ok? && res.value.status.ARRIVED? && HasArrived(n, t.relay, id)
  {
    LiveIsGood(x, p);
    SettleableArrives(x.coord.missions, x.coord.store, id, env, tx, p);
  }

  // ---------------------------------------------------------------- payments nobody reported

  /** The open intent's slot has no hash yet. */
  predicate IsUnreported(r: Relay, id: string) {
    id in r.intents && var hop := GetHop(r.hops, id, r.intents[id].sequence); hop.None? || hop.value.txHash.None?
  }

  /** A history whose only matching payment is the agreed one leads discovery to it. */
  lemma DiscoveryFindsTheAgreed(i: PassIntent, rpc: Rpc, tx: Tx)
    requires rpc.history.Some? && rpc.history.value(i.recipient).Reply? && tx in rpc.history.value(i.recipient).value
    requires tx.hash != "" && IsAsAgreed(i, tx) && RelayTheorems.MatchesAreOne(rpc.history.value(i.recipient).value, Matcher(i, rpc))
    ensures Discovered(i, rpc) == Ok(Some(tx))
  {
    var history := rpc.history.value(i.recipient).value;
    AgreedIsValid(i, tx, rpc);
    RelayTheorems.DiscoveryIsExact(history, Matcher(i, rpc));
    assert RelayTheorems.IsMatchIn(history, Matcher(i, rpc), tx);
    var found := Chosen(history, Matcher(i, rpc));
    if found.Ok? && found.value.Some? {
      assert RelayTheorems.IsMatchIn(history, Matcher(i, rpc), found.value.value);
    }
  }

  lemma DiscoveredBecomesFinal(s: Store, id: string, env: Env, tx: Tx)
    requires RelaySafety.Inv(s.relay) && IsUnreported(s.relay, id) && Discovered(s.relay.intents[id], env.first) == Ok(Some(tx))
    requires FindByHash(s.relay.hops, tx.hash).None? && IsAsAgreed(s.relay.intents[id], tx)
    requires tx.blockNumber.Some? && env.second.head.Reply?
             && Policy.HasReachedFinality(tx.blockNumber, env.second.head.value, Policy.NIMIQ_POLICY)
    ensures var (t, res) := Reconciled(s, id, env.at, env.first, env.second);
            var i := s.relay.intents[id];
            res.Ok? && IsFinal(t.relay.hops, id, i.sequence) && GetHop(t.relay.hops, id, i.sequence).value.invitationId == i.invitationId
  {
    var i := s.relay.intents[id];
    assert IsNext(s.relay, id, i);
    AgreedIsValid(i, tx, env.second);
    var h := HopFor(i, Some(tx.hash), HopStatus.PENDING);
    PutThenGet(s.relay.hops, h, id, i.sequence);
    PutThenGet(PutHop(s.relay.hops, h), Patched(h, Verdict(tx, env.second.head.value, env.at)), id, i.sequence);
  }

  /** The same for a payment discovery finds under a hash no slot holds. */
  ghost predicate IsDiscoverable(m: MissionStore, r: Relay, id: string, env: Env, tx: Tx) {
    && IsUnreported(r, id) && Discovered(r.intents[id], env.first) == Ok(Some(tx)) && FindByHash(r.hops, tx.hash).None?
    && IsAsAgreed(r.intents[id], tx) && (IsGiven(r.intents[id].invitationId) ==> HasAccepted(m, r.intents[id].invitationId.value, id))
    && tx.blockNumber.Some? && env.second.head.Reply? && Policy.HasReachedFinality(tx.blockNumber, env.second.head.value, Policy.NIMIQ_POLICY)
  }

  lemma DiscoverableArrives(m: MissionStore, s: Store, id: string, env: Env, tx: Tx, p: Protector)
    requires MissionSafety.Inv(m, p) && Good(s.relay, m, p) && IsSound(p) && env.flushed && env.projection && env.reread
    requires id in m.missions && m.missions[id].status.ACTIVE? && IsDiscoverable(m, s.relay, id, env, tx)
    ensures var (n, t, res) := MissionReconciled(m, s, id, env, p); res.Ok? && res.value.status.ARRIVED? && HasArrived(n, t.relay, id)
  {
    assert IntentLinked(id, s.relay.intents[id], m, p);
    DiscoveredBecomesFinal(s, id, env, tx);
    ReconcileKeepsGood(m, s, id, env, p);
    FinalReconcileArrives(m, s, id, env, p);
  }

  /** Nobody need report it: discovery finds it, and its ACTIVE mission arrives in that reconcile. */
  lemma DiscoveredPaymentArrives(x: Sys, id: string, env: Env, tx: Tx, p: Protector)
    requires SysInv(x, p) && IsSound(p) && env.flushed && env.projection && env.reread
    requires id in x.coord.missions.missions && x.coord.missions.missions[id].status.ACTIVE?
    requires IsDiscoverable(x.coord.missions, x.coord.store.relay, id, env, tx)
    ensures var (n, t, res) := MissionReconciled(x.coord.missions, x.coord.store, id, env, p);
            res.Ok? && res.value.status.ARRIVED? && HasArrived(n, t.relay, id)
  {
    LiveIsGood(x, p);
    DiscoverableArrives(x.coord.missions, x.coord.store, id, env, tx, p);
  }

  // ---------------------------------------------------------------- FINAL and ARRIVED

  /** What an undisturbed reconcile leaves of the missions. */
  lemma UndisturbedProjects(m: MissionStore, s: Store, id: string, env: Env, p: Protector)
    requires env.flushed && env.projection && Reconciled(s, id, env.at, env.first, env.second).1.Ok?
    ensures MissionReconciled(m, s, id, env, p).0
         == Projected(m, Reconciled(s, id, env.at, env.first, env.second).0.relay, id, env.at, p, LatestClaim(m.claims, id)).0
    ensures MissionReconciled(m, s, id, env, p).1 == Reconciled(s, id, env.at, env.first, env.second).0
  {
  }

  lemma ArrivedKeepsUp(m: MissionStore, r: Relay, id: string, p: Protector)
    requires MissionSafety.Inv(m, p) && Good(r, m, p) && id in m.missions && m.missions[id].status.ARRIVED?
    ensures HasArrived(m, r, id)
  {
    assert MissionSafety.MissionOk(id, m.missions[id], p);
    FinalClosesTheMission(r, m, id, p);
    assert HopLinked(GetHop(r.hops, id, 1).value, m, p);
  }

  /**
   * FINAL does not always mean ARRIVED: after an undisturbed reconcile that leaves the mission's hop FINAL, the mission has
   * arrived exactly when it already had, or was still ACTIVE with a hop that is direct or whose invitation is ACCEPTED.
   */
  lemma FinalMissionHasArrivedExactlyWhen(x: Sys, id: string, env: Env, p: Protector)
    requires SysInv(x, p) && IsSound(p) && env.flushed && env.projection && id in x.coord.missions.missions
    requires var (t, res) := Reconciled(x.coord.store, id, env.at, env.first, env.second); res.Ok? && IsFinal(t.relay.hops, id, 1)
    ensures var t := Reconciled(x.coord.store, id, env.at, env.first, env.second).0;
            var was := x.coord.missions.missions[id];
            (HasArrived(MissionReconciled(x.coord.missions, x.coord.store, id, env, p).0, t.relay, id)
             <==> was.status.ARRIVED? || (was.status.ACTIVE? && CanProject(x.coord.missions, GetHop(t.relay.hops, id, 1).value, id)))
  {
    var m, s := x.coord.missions, x.coord.store;
    LiveIsGood(x, p);
    ReconcileKeepsGood(m, s, id, env, p);
    UndisturbedProjects(m, s, id, env, p);
    FinalHasArrivedExactlyWhen(m, Reconciled(s, id, env.at, env.first, env.second).0.relay, id, env.at, p);
  }

  lemma FinalHasArrivedExactlyWhen(m: MissionStore, r: Relay, id: string, now: int, p: Protector)
    requires MissionSafety.Inv(m, p) && IsSound(p) && Good(r, m, p) && id in m.missions && IsFinal(r.hops, id, 1)
    ensures HasArrived(Projected(m, r, id, now, p, LatestClaim(m.claims, id)).0, r, id)
       <==> m.missions[id].status.ARRIVED? || (m.missions[id].status.ACTIVE? && CanProject(m, GetHop(r.hops, id, 1).value, id))
  {
    if m.missions[id].status.ACTIVE? {
      ProjectionSucceedsExactlyWhen(m, r, id, now, p);
    } else if m.missions[id].status.ARRIVED? {
      ArrivedKeepsUp(m, r, id, p);
    }
  }

  // ---------------------------------------------------------------- one whole run

  lemma PaymentIsAsAgreed(v: Option<string>, at: int, when: int, projection: bool, c: Crypto)
    ensures var i := IntentOf(v, at, c); IsAsAgreed(i, PaymentOf(i)) && IsShownFinal(Settling(i, when, projection), "h", PaymentOf(i))
  {
    IntentIsDirect(v, at, c);
    NimiqAddressIsAWallet(ALICE);
  }

  /** The machine is not empty: a mission opened, authorized, paid and reconciled in four legal steps has ARRIVED. */
  lemma ADeliveryArrives(c: Crypto) returns (x: Sys)
    requires IsSound(c.protector)
    ensures Reachable(x, c) && HasArrived(x.coord.missions, x.coord.store.relay, "m")
  {
    var z := Sent(c);
    var env := Settling(IntentOf(None, 2, c), 4, true);
    ReachableIsInStep(z, c);
    IntentIsDirect(None, 2, c);
    PaymentIsAsAgreed(None, 2, 4, true, c);
    SentIsRecorded(z.coord.store.relay, None, 2, c);
    AgreedPaymentArrives(z, "m", env, PaymentOf(IntentOf(None, 2, c)), c.protector);
    x := ReconcileLands(z, "m", env, c);
  }
}
