/** Legal runs that end where a promise one might expect does not hold. */
module ConcreteRuns {
  import opened Domain
  import opened PaymentRails
  import opened Relay
  import opened RelayService
  import opened RelaySafety
  import opened RelayRuns
  import opened PgRelayTables
  import opened Missions
  import opened MissionService
  import MissionSafety
  import opened MissionOps
  import opened Coordinator
  import opened System
  import opened Delivery
  import opened Reachability
  import opened Scenario
  import opened HonestRun
  import opened AdapterGaps
  import opened MissionView

  // ---------------------------------------------------------------- FINAL without ARRIVED

  /** The mission as Alice's cancellation leaves it. */
  function CancelledMissions(c: Crypto): MissionStore {
    MissionStore(map["m" := Opening(c).(status := MissionStatus.CANCELLED, cancelledAt := Some(3), updatedAt := 3)], [], [])
  }

  lemma CancelComputes(c: Crypto)
    ensures ApplyOp(Begun(c), PassedRelay(None, 2, c), CancelMission("m", Alices(CANCEL_MISSION, None)), 3, c.protector) == CancelledMissions(c)
  {
    IntentIsDirect(None, 2, c);
    assert GetHop([], "m", 1) == None;
  }

  lemma CancelLands(c: Crypto) returns (x: Sys)
    requires IsSound(c.protector)
    ensures Reachable(x, c) && x.clock == 3 && x.coord.store.relay == PassedRelay(None, 2, c)
    ensures x.coord.missions == CancelledMissions(c)
  {
    var y := Passed(c);
    CancelComputes(c);
    x := OpLands(y, CancelMission("m", Alices(CANCEL_MISSION, None)), 3, c);
  }

  lemma UnreportedIsFound(c: Crypto, at: int)
    ensures var i := IntentOf(None, 2, c);
            IsUnreported(PassedRelay(None, 2, c), "m") && Discovered(i, Settling(i, at, true).first) == Ok(Some(PaymentOf(i)))
  {
    var i := IntentOf(None, 2, c);
    IntentIsDirect(None, 2, c);
    PaymentIsAsAgreed(None, 2, at, true, c);
    assert GetHop([], "m", 1) == None;
    DiscoveryFindsTheAgreed(i, Settling(i, at, true).first, PaymentOf(i));
  }

  /** Alice authorizes, cancels while no hash is known, and her payment is discovered later: FINAL, but never ARRIVED. */
  lemma ACancelledMissionIsPaid(c: Crypto) returns (x: Sys)
    requires IsSound(c.protector)
    ensures Reachable(x, c) && IsFinal(x.coord.store.relay.hops, "m", 1)
    ensures "m" in x.coord.missions.missions && x.coord.missions.missions["m"].status.CANCELLED?
  {
    var y := CancelLands(c);
    ReachableIsValid(y, c);
    CancelledIsPaid(y.coord.missions, y.coord.store, c);
    x := ReconcileLands(y, "m", Settling(IntentOf(None, 2, c), 4, true), c);
  }

  lemma CancelledIsPaid(m: MissionStore, s: Store, c: Crypto)
    requires m == CancelledMissions(c) && s.relay == PassedRelay(None, 2, c) && RelaySafety.Inv(s.relay)
    ensures var (n, t, _) := MissionReconciled(m, s, "m", Settling(IntentOf(None, 2, c), 4, true), c.protector);
            n == m && IsFinal(t.relay.hops, "m", 1)
  {
    var i := IntentOf(None, 2, c);
    IntentIsDirect(None, 2, c);
    PaymentIsAsAgreed(None, 2, 4, true, c);
    UnreportedIsFound(c, 4);
    DiscoveredBecomesFinal(s, "m", Settling(i, 4, true), PaymentOf(i));
    UndisturbedProjects(m, s, "m", Settling(i, 4, true), c.protector);
  }

  // ---------------------------------------------------------------- introductions that run out

  /** FINAL through Carol's accepted introduction, while the mission store is out of reach. */
  lemma IntroducedAndFinal(c: Crypto) returns (x: Sys)
    requires IsSound(c.protector)
    ensures Reachable(x, c) && x.clock == 6 && x.coord.missions == WithInvitation(c, ACCEPTANCE, 3)
    ensures IsFinal(x.coord.store.relay.hops, "m", 1) && GetHop(x.coord.store.relay.hops, "m", 1).value.invitationId == Some("i")
  {
    var w := Introduced(c);
    AcceptedIsChecked(w.coord.missions, c);
    var y := PassLands(w, Some("i"), 4, c);
    IntentIsDirect(Some("i"), 4, c);
    var z := SendLands(y, Some("i"), 4, 5, c);
    x := FinalLands(z, Some("i"), 4, c);
  }

  lemma AcceptedIsChecked(m: MissionStore, c: Crypto)
    requires m == WithInvitation(c, ACCEPTANCE, 3)
    ensures PassChecked(m, EMPTY, PassOf(Some("i"), 4)) == Ok(Some("i"))
    ensures forall i: PassIntent | i.invitationId == Some("i") && i.sequence == 1 :: PathChecked(m, i, "m", LatestClaim(m.claims, "m")) == Ok(())
  {
    assert m.invitations[0] == ACCEPTANCE;
  }

  /** A recorded payment becomes FINAL while the projection cannot reach the mission store. */
  lemma FinalLands(z: Sys, v: Option<string>, at: int, c: Crypto) returns (x: Sys)
    requires Reachable(z, c) && IsSound(c.protector) && z.clock <= at + 2 && z.coord.store.relay == SentRelay(v, at, c)
    ensures Reachable(x, c) && x.clock == at + 2 && x.coord.missions == z.coord.missions
    ensures IsFinal(x.coord.store.relay.hops, "m", 1) && GetHop(x.coord.store.relay.hops, "m", 1).value.invitationId == v
    ensures |x.coord.store.journal| > 0 && x.persisted == |x.coord.store.journal| - 1
    ensures x.db == Written(z.db, x.coord.store.relay, z.coord.missions.missions.Keys, FirstLookup(z.coord.missions))
  {
    var env := Settling(IntentOf(v, at, c), at + 2, false);
    ReachableIsValid(z, c);
    SentBecomesFinal(z.coord.store, v, at, c);
    x := UnprojectedLands(z, "m", env, c);
  }

  lemma SentBecomesFinal(s: Store, v: Option<string>, at: int, c: Crypto)
    requires s.relay == SentRelay(v, at, c) && RelaySafety.Inv(s.relay)
    ensures var env := Settling(IntentOf(v, at, c), at + 2, false);
            var hops := Reconciled(s, "m", env.at, env.first, env.second).0.relay.hops;
            IsFinal(hops, "m", 1) && GetHop(hops, "m", 1).value.invitationId == v
  {
    var i := IntentOf(v, at, c);
    IntentIsDirect(v, at, c);
    PaymentIsAsAgreed(v, at, at + 2, false, c);
    SentIsRecorded(s.relay, v, at, c);
    AgreedBecomesFinal(s, "m", Settling(i, at + 2, false), PaymentOf(i));
  }

  /** The expiry sweep closes Carol's introduction after her payment is FINAL: what would have projected a moment ago no longer does. */
  lemma AnIntroducedDeliveryIsStranded(c: Crypto) returns (before: Sys, after: Sys)
    requires IsSound(c.protector)
    ensures Reachable(before, c) && Reachable(after, c) && after.coord.missions == InvitationsExpired(before.coord.missions, 3 + ACCEPTED_PASS_DEADLINE_MS)
    ensures var m, r := before.coord.missions, before.coord.store.relay; Projected(m, r, "m", 7, c.protector, LatestClaim(m.claims, "m")).1.Ok?
    ensures var m, r := after.coord.missions, after.coord.store.relay;
            && "m" in m.missions && m.missions["m"].status.ACTIVE? && IsFinal(r.hops, "m", 1)
            && Projected(m, r, "m", 7, c.protector, LatestClaim(m.claims, "m")) == (m, Err(FINAL_HOP_WITHOUT_ACCEPTED_INVITATION))
  {
    before := IntroducedAndFinal(c);
    ReachableIsInStep(before, c);
    LiveIsGood(before, c.protector);
    assert before.coord.missions.invitations[0] == ACCEPTANCE;
    assert FindInvitation(before.coord.missions.invitations, "i") == Some(ACCEPTANCE);
    ExpiryStopsAnIntroducedDelivery(before.coord.missions, before.coord.store.relay, "m", 3 + ACCEPTED_PASS_DEADLINE_MS, 7, c.protector);
    after := OpLands(before, ExpireInvitations, 3 + ACCEPTED_PASS_DEADLINE_MS, c);
  }

  /** At the pass deadline, before the sweep has run, PASS_1_NIM is still offered and refused. */
  lemma ALatePassIsRefused(c: Crypto) returns (x: Sys)
    requires IsSound(c.protector)
    ensures Reachable(x, c)
    ensures var at, m, s := 3 + ACCEPTED_PASS_DEADLINE_MS, x.coord.missions, x.coord.store;
            && OfferedAction(m, s.relay, "m", Some(ALICE), true, at, c.protector) == Ok(Some(PASS_1_NIM))
            && Authorized(m, s, PassOf(Some("i"), at), "n", at, c.sha, c.protector, true) == (s, Err(PASS_DEADLINE_EXPIRED))
  {
    x := Introduced(c);
    LateIsOffered(x.coord.missions, x.coord.store.relay, c);
    LateIsRefused(x.coord.missions, x.coord.store, c);
  }

  lemma LateIsOffered(m: MissionStore, r: Relay, c: Crypto)
    requires IsSound(c.protector) && m == WithInvitation(c, ACCEPTANCE, 3) && r == EMPTY
    ensures OfferedAction(m, r, "m", Some(ALICE), true, 3 + ACCEPTED_PASS_DEADLINE_MS, c.protector) == Ok(Some(PASS_1_NIM))
  {
    assert m.invitations[0] == ACCEPTANCE;
    assert ALICE[2] != BOB[2];
    assert OpenInvitation(m, "m") == Some(ACCEPTANCE);
    assert RouteOf([], "m") == [];
  }

  lemma LateIsRefused(m: MissionStore, s: Store, c: Crypto)
    requires m == WithInvitation(c, ACCEPTANCE, 3)
    ensures var at := 3 + ACCEPTED_PASS_DEADLINE_MS;
            Authorized(m, s, PassOf(Some("i"), at), "n", at, c.sha, c.protector, true) == (s, Err(PASS_DEADLINE_EXPIRED))
  {
    assert m.invitations[0] == ACCEPTANCE;
  }

  // ---------------------------------------------------------------- the filled invitation column

  lemma DirectAfterWithdrawal(c: Crypto) returns (x: Sys)
    requires IsSound(c.protector)
    ensures Reachable(x, c) && x.clock == 6 && x.coord.missions == WithInvitation(c, WITHDRAWAL, 3)
    ensures IsFinal(x.coord.store.relay.hops, "m", 1) && GetHop(x.coord.store.relay.hops, "m", 1).value.invitationId == None
    ensures x.persisted == |x.coord.store.journal| - 1
    ensures exists t :: x.db == Written(t, x.coord.store.relay, x.coord.missions.missions.Keys, FirstLookup(x.coord.missions))
  {
    var w := Withdrew(c);
    assert PassChecked(w.coord.missions, EMPTY, PassOf(None, 4)) == Ok(None);
    var y := PassLands(w, None, 4, c);
    IntentIsDirect(None, 4, c);
    var z := SendLands(y, None, 4, 5, c);
    x := FinalLands(z, None, 4, c);
  }

  /**
   * Alice withdraws an invitation, pays Bob directly, and the process stops between FINAL and the projection. The withdrawn
   * invitation fills the hop's null column, so after the restart the projection demands an ACCEPTED one.
   */
  lemma AReloadedDirectDeliveryIsStranded(c: Crypto) returns (before: Sys, after: Sys)
    requires IsSound(c.protector)
    ensures Reachable(before, c) && Reachable(after, c) && after.coord.missions == before.coord.missions
    ensures var m, r := before.coord.missions, before.coord.store.relay; Projected(m, r, "m", 8, c.protector, LatestClaim(m.claims, "m")).1.Ok?
    ensures var m, r := after.coord.missions, after.coord.store.relay;
            && "m" in m.missions && m.missions["m"].status.ACTIVE? && IsFinal(r.hops, "m", 1)
            && Projected(m, r, "m", 8, c.protector, LatestClaim(m.claims, "m")).1 == Err(FINAL_HOP_WITHOUT_ACCEPTED_INVITATION)
  {
    before := DirectAfterWithdrawal(c);
    ReachableIsInStep(before, c);
    var r := SomeReload(before, c.protector);
    after := CrashLands(before, r, 7, c);
    ReachableIsInStep(after, c);
    ReloadOfTheLast(before, r, c.protector);
    var m, s := before.coord.missions, before.coord.store.relay;
    var t :| before.db == Written(t, s, m.missions.Keys, FirstLookup(m));
    WithdrawnColumnStrands(m, s, t, r, c);
  }

  lemma SomeReload(x: Sys, p: Protector) returns (r: Relay)
    requires SysInv(x, p)
    ensures LoadedFrom(x.db, r)
  {
    r := LoadExists(x.db);
  }

  lemma ReloadOfTheLast(x: Sys, r: Relay, p: Protector)
    requires SysInv(x, p) && IsSound(p) && x.persisted == |x.coord.store.journal| - 1 && LoadedFrom(x.db, r)
    ensures MissionSafety.Inv(x.coord.missions, p) && Good(x.coord.store.relay, x.coord.missions, p) && SurvivesReload(x.coord.store.relay, r)
  {
    LiveIsGood(x, p);
    LastIsLive(x, p);
    ReloadIsGood(x, x.coord.store.relay, r, p);
  }

  lemma WithdrawnColumnStrands(m: MissionStore, s: Relay, t: Tables, r: Relay, c: Crypto)
    requires MissionSafety.Inv(m, c.protector) && IsSound(c.protector) && Good(s, m, c.protector) && SurvivesReload(s, r)
    requires m == WithInvitation(c, WITHDRAWAL, 3) && IsFinal(s.hops, "m", 1) && GetHop(s.hops, "m", 1).value.invitationId == None
    requires LoadedFrom(Written(t, s, m.missions.Keys, FirstLookup(m)), r)
    ensures Projected(m, s, "m", 8, c.protector, LatestClaim(m.claims, "m")).1.Ok? && IsFinal(r.hops, "m", 1)
    ensures Projected(m, r, "m", 8, c.protector, LatestClaim(m.claims, "m")).1 == Err(FINAL_HOP_WITHOUT_ACCEPTED_INVITATION)
  {
    ProjectionSucceedsExactlyWhen(m, s, "m", 8, c.protector);
    FilledColumnStrands(m, t, s, r, c);
  }

  lemma FilledColumnStrands(m: MissionStore, t: Tables, s: Relay, r: Relay, c: Crypto)
    requires m == WithInvitation(c, WITHDRAWAL, 3) && SlotsUnique(s.hops) && SurvivesReload(s, r)
    requires IsFinal(s.hops, "m", 1) && GetHop(s.hops, "m", 1).value.invitationId == None
    requires LoadedFrom(Written(t, s, m.missions.Keys, FirstLookup(m)), r)
    ensures IsFinal(r.hops, "m", 1)
    ensures Projected(m, r, "m", 8, c.protector, LatestClaim(m.claims, "m")).1 == Err(FINAL_HOP_WITHOUT_ACCEPTED_INVITATION)
  {
    WithdrawnFills(m, c);
    ReloadFillsInvitation(t, s, m.missions.Keys, FirstLookup(m), r, "m", 1);
    assert SameHop(GetHop(s.hops, "m", 1).value, GetHop(r.hops, "m", 1).value);
    FinalHopIsTheSlot(r.hops, "m", 1);
    assert FindInvitation(m.invitations, "i") == Some(WITHDRAWAL);
  }

  lemma DirectIntentAfterWithdrawal(c: Crypto) returns (y: Sys)
    requires IsSound(c.protector)
    ensures Reachable(y, c) && y.clock == 4 && y.coord.missions == WithInvitation(c, WITHDRAWAL, 3)
    ensures y.coord.store.relay == PassedRelay(None, 4, c)
  {
    var w := Withdrew(c);
    assert PassChecked(w.coord.missions, EMPTY, PassOf(None, 4)) == Ok(None);
    y := PassLands(w, None, 4, c);
  }

  /**
   * Alice withdraws an invitation and authorizes the direct delivery, the relay is written, and the process restarts. The
   * withdrawn invitation fills the intent's null column: her own request now conflicts, and her payment cannot be reported.
   */
  lemma AReloadedDirectIntentIsUnusable(c: Crypto) returns (before: Sys, after: Sys)
    requires IsSound(c.protector)
    ensures Reachable(before, c) && Reachable(after, c) && after.coord.missions == before.coord.missions
    ensures var m, s := before.coord.missions, before.coord.store;
            Authorized(m, s, PassOf(None, 6), "n", 6, c.sha, c.protector, true).1.Ok? && BroadcastChecked(m, s.relay, "m", None) == Ok(())
    ensures var m, s := after.coord.missions, after.coord.store;
            && Authorized(m, s, PassOf(None, 6), "n", 6, c.sha, c.protector, true).1 == Err(RELAY_INTENT_CONFLICT)
            && BroadcastChecked(m, s.relay, "m", None) == Err(DELIVERY_AUTHORIZATION_MISMATCH)
  {
    before := DirectIntentAfterWithdrawal(c);
    var z := PersistLands(before, 5, c);
    ReachableIsInStep(before, c);
    ReachableIsInStep(z, c);
    var r := SomeReload(z, c.protector);
    after := CrashLands(z, r, 6, c);
    LookupIsReal(before, c);
    OpenIntentAnswers(before.coord.missions, before.coord.store, c);
    WithdrawnFills(before.coord.missions, c);
    ReloadedDirectIntentIsUsableExactlyWhen(before, FirstLookup(before.coord.missions), r, PassOf(None, 6), "n", 6, c);
  }

  lemma OpenIntentAnswers(m: MissionStore, s: Store, c: Crypto)
    requires IsSound(c.protector) && m == WithInvitation(c, WITHDRAWAL, 3) && s.relay == PassedRelay(None, 4, c)
    ensures Authorized(m, s, PassOf(None, 6), "n", 6, c.sha, c.protector, true).1.Ok? && BroadcastChecked(m, s.relay, "m", None) == Ok(())
    ensures "m" in s.relay.intents && s.relay.intents["m"].invitationId == None && !IsStale(s.relay.intents["m"], 6)
    ensures forall r :: PassChecked(m, r, PassOf(None, 6)) == Ok(None)
  {
    IntentIsDirect(None, 4, c);
  }

  lemma WithdrawnFills(m: MissionStore, c: Crypto)
    requires m == WithInvitation(c, WITHDRAWAL, 3)
    ensures FirstLookup(m)("m", 1) == Some("i")
  {
    assert m.invitations[0] == WITHDRAWAL;
  }

  // ---------------------------------------------------------------- the first claim

  const UNBOUND := Mission("m", ALICE, ALICE, None, None, false, ACTIVE, 0, 0, 1, None, None, 1)

  const FIRST := Claim("c1", "m", "t1", REVOKED, 2, 2 + DESTINATION_CLAIM_TTL_MS, None, Some(3), None)
  const SECOND := Claim("c2", "m", "t2", ClaimStatus.PENDING, 3, 3 + DESTINATION_CLAIM_TTL_MS, None, None, None)

  const ISSUED := FIRST.(status := ClaimStatus.PENDING, closedAt := None)

  lemma UnboundComputes(p: Protector)
    ensures ApplyOp(NO_MISSIONS, EMPTY, OpenMission("m", OPENING, None), 1, p) == MissionStore(map["m" := UNBOUND], [], [])
  {
  }

  lemma IssuingComputes(p: Protector)
    ensures ApplyOp(MissionStore(map["m" := UNBOUND], [], []), EMPTY, OpenClaim("m", ALICE, "c1", "t1"), 2, p)
         == MissionStore(map["m" := UNBOUND.(updatedAt := 2)], [], [ISSUED])
  {
    assert [] + [ISSUED] == [ISSUED];
  }

  lemma ClaimIssuedRun(c: Crypto) returns (x: Sys)
    requires IsSound(c.protector)
    ensures Reachable(x, c) && x.clock == 2 && x.coord.store == START.coord.store
    ensures x.coord.missions == MissionStore(map["m" := UNBOUND.(updatedAt := 2)], [], [ISSUED])
  {
    StartIsReachable(c);
    UnboundComputes(c.protector);
    IssuingComputes(c.protector);
    var w := OpLands(START, OpenMission("m", OPENING, None), 1, c);
    x := OpLands(w, OpenClaim("m", ALICE, "c1", "t1"), 2, c);
  }

  lemma ClaimReissuedRun(c: Crypto) returns (x: Sys)
    requires IsSound(c.protector)
    ensures Reachable(x, c) && x.clock == 3 && x.coord.store == START.coord.store
    ensures x.coord.missions == MissionStore(map["m" := UNBOUND.(updatedAt := 3)], [], [FIRST, SECOND])
  {
    var y := ClaimIssuedRun(c);
    ReissueComputes();
    assert "c1"[1] != "c2"[1];
    x := OpLands(y, ReissueClaim("m", Alices(CREATE_DESTINATION_CLAIM, None), "c2", "t2"), 3, c);
  }

  lemma ReissueComputes()
    ensures ClaimReissued(MissionStore(map["m" := UNBOUND.(updatedAt := 2)], [], [ISSUED]), "m", ALICE, "c2", "t2", 3).0
         == MissionStore(map["m" := UNBOUND.(updatedAt := 3)], [], [FIRST, SECOND])
  {
    var s := MissionStore(map["m" := UNBOUND.(updatedAt := 2)], [], [ISSUED]);
    var t := MissionStore(map["m" := UNBOUND.(updatedAt := 3)], [], [FIRST]);
    assert s.claims[0] == ISSUED && IsRevocable(s.claims[0], "m");
    assert ClaimsRevoked(s, "m", 3) == t;
    assert LatestClaim(t.claims, "m") == Some(FIRST);
    assert "t1"[1] != "t2"[1];
    assert t.claims == [FIRST] && [FIRST] + [SECOND] == [FIRST, SECOND];
  }

  /** Alice reissues her claim link and Bob accepts the second one: with the file adapter his mission can never be paid directly. */
  lemma AReissuedClaimBlocksTheFileAdapter(c: Crypto) returns (x: Sys)
    requires IsSound(c.protector)
    ensures Reachable(x, c) && x.coord.store.relay == EMPTY
    ensures var m := x.coord.missions;
            && "m" in m.missions && MissionSafety.IsBound(m.missions["m"])
            && PassChecked(m, EMPTY, PassOf(None, 5)) == Ok(None)
            && PassGuarded(m, EMPTY, PassOf(None, 5), FirstClaim(m.claims, "m")) == Err(DESTINATION_NOT_CLAIMED)
            && FirstClaim(m.claims, "m") != LatestClaim(m.claims, "m")
  {
    var w := ClaimReissuedRun(c);
    ClaimComputes(c);
    ClaimingIsSigned(c);
    x := OpLands(w, CLAIMING, 4, c);
    SecondIsClaimed(x.coord.missions, c);
  }

  const CLAIMING := ClaimDestination("t2", WalletAction(CLAIM_DESTINATION, BOB, Some("m"), None, None), "iv")

  lemma ClaimingIsSigned(c: Crypto)
    ensures var s := MissionStore(map["m" := UNBOUND.(updatedAt := 3)], [], [FIRST, SECOND]);
            ApplyOp(s, EMPTY, CLAIMING, 4, c.protector) == DestinationClaimed(s, "t2", BOB, "iv", false, 4, c.protector).0
  {
    var s := MissionStore(map["m" := UNBOUND.(updatedAt := 3)], [], [FIRST, SECOND]);
    SecondIsFound(s.claims);
  }

  lemma SecondIsClaimed(m: MissionStore, c: Crypto)
    requires IsSound(c.protector) && m == ClaimedMissions(c)
    ensures "m" in m.missions && MissionSafety.IsBound(m.missions["m"]) && PassChecked(m, EMPTY, PassOf(None, 5)) == Ok(None)
    ensures PassGuarded(m, EMPTY, PassOf(None, 5), FirstClaim(m.claims, "m")) == Err(DESTINATION_NOT_CLAIMED)
    ensures FirstClaim(m.claims, "m") != LatestClaim(m.claims, "m")
  {
  }

  /** Bob has accepted the second link. */
  function ClaimedMissions(c: Crypto): MissionStore {
    var p := c.protector;
    MissionStore(map["m" := UNBOUND.(targetCiphertext := Some(p.encrypt(BOB, "iv")), targetHmac := Some(p.hmac(BOB)),
                                     targetConsent := true, updatedAt := 4)], [],
                 [FIRST, SECOND.(status := CLAIMED, claimedWallet := Some(BOB), claimedAt := Some(4), closedAt := Some(4))])
  }

  lemma ClaimComputes(c: Crypto)
    requires IsSound(c.protector)
    ensures var s := MissionStore(map["m" := UNBOUND.(updatedAt := 3)], [], [FIRST, SECOND]);
            DestinationClaimed(s, "t2", BOB, "iv", false, 4, c.protector).0 == ClaimedMissions(c)
  {
    assert "t1"[1] != "t2"[1] && "c1"[1] != "c2"[1] && ALICE[2] != BOB[2];
    var s := MissionStore(map["m" := UNBOUND.(updatedAt := 3)], [], [FIRST, SECOND]);
    assert s.claims[0] == FIRST && s.claims[1] == SECOND;
    SecondIsFound(s.claims);
  }

  lemma SecondIsFound(claims: seq<Claim>)
    requires claims == [FIRST, SECOND]
    ensures ClaimByToken(claims, "t2") == Some(SECOND) && ClaimIndex(claims, "c2") == 1
  {
    assert "t1"[1] != "t2"[1] && "c1"[1] != "c2"[1];
    assert claims[0].id != "c2" && claims[1].id == "c2";
    assert claims[0].tokenHash != "t2" && claims[1..] == [SECOND] && ClaimByToken([SECOND], "t2") == Some(SECOND);
  }
}
