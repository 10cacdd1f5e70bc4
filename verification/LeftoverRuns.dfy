/** Legal runs in which an intent that was closed leaves something behind. */
module LeftoverRuns {
  import opened Domain
  import opened PaymentRails
  import opened Relay
  import opened RelayService
  import opened RelaySafety
  import opened PgRelayTables
  import opened Missions
  import opened MissionService
  import MissionSafety
  import opened Coordinator
  import opened System
  import opened Delivery
  import opened Reachability
  import opened Scenario
  import opened HonestRun
  import RelayTheorems
  import Signatures
  import opened SweepProgress
  import Policy

  // ---------------------------------------------------------------- an intent renewed in a closed slot

  /** The first instant at which Alice's first intent is too old. */
  const LATE := 3 + Policy.INTENT_VALIDITY_WINDOW_MS

  /** A chain on which nothing has been paid, while the mission store is out of reach. */
  function Quiet(at: int): Env {
    var rpc := Rpc(_ => Reply(None), Reply(Policy.NIMIQ_POLICY.genesisBlockNumber), Some(_ => Reply([])), None);
    Env(at, rpc, rpc, true, true, false, true)
  }

  function ClosedHop(c: Crypto): Hop {
    HopFor(IntentOf(None, 2, c), None, HopStatus.INVALID)
  }

  function ClosedRelay(c: Crypto): Relay {
    Relay(map[], [ClosedHop(c)], map["m" := ALICE])
  }

  lemma UnpaidIsExpired(s: Store, c: Crypto)
    requires s.relay == PassedRelay(None, 2, c)
    ensures Reconciled(s, "m", LATE, Quiet(LATE).first, Quiet(LATE).second).0.relay == ClosedRelay(c)
  {
    IntentIsDirect(None, 2, c);
    var i := IntentOf(None, 2, c);
    assert GetHop([], "m", 1) == None;
    assert Discovered(i, Quiet(LATE).first) == Ok(None);
    assert PutHop([], ClosedHop(c)) == [ClosedHop(c)];
    assert s.relay.intents - {"m"} == map[];
  }

  /** Opened, authorized, never paid, and closed by a reconcile after its window. */
  lemma ExpiredLands(c: Crypto) returns (x: Sys)
    requires IsSound(c.protector)
    ensures Reachable(x, c) && x.clock == LATE && x.coord.missions == Begun(c) && x.coord.store.relay == ClosedRelay(c)
  {
    var y := Passed(c);
    UnpaidIsExpired(y.coord.store, c);
    x := UnprojectedLands(y, "m", Quiet(LATE), c);
  }

  lemma ClosedIsOpenToAlice(m: MissionStore, c: Crypto)
    requires IsSound(c.protector) && m == Begun(c)
    ensures Signatures.IsAuthorizable(m, ClosedRelay(c), PassOf(None, LATE)) && !Signatures.IsLive(ClosedRelay(c), PassOf(None, LATE))
    ensures MissionSafety.Target(m.missions["m"], c.protector) == Some(BOB)
  {
    IntentIsDirect(None, 2, c);
    assert GetHop([ClosedHop(c)], "m", 1) == Some(ClosedHop(c));
  }

  /** Alice authorizes again: her new intent waits in the slot the old one left INVALID. */
  lemma RenewedLands(c: Crypto) returns (x: Sys, i: PassIntent)
    requires IsSound(c.protector)
    ensures Reachable(x, c) && x.clock == LATE && x.coord.missions == Begun(c)
    ensures x.coord.store.relay == Relay(map["m" := i], [ClosedHop(c)], map["m" := ALICE])
    ensures Signatures.IsIntentFor(i, PassOf(None, LATE), BOB, "n", LATE, c.sha)
  {
    var y := ExpiredLands(c);
    ReachableIsInStep(y, c);
    LiveIsGood(y, c.protector);
    RenewalOpens(y.coord.missions, y.coord.store, c);
    x := AuthorizeLands(y, PassOf(None, LATE), "n", LATE, true, c);
    i := x.coord.store.relay.intents["m"];
  }

  lemma RenewalOpens(m: MissionStore, s: Store, c: Crypto)
    requires IsSound(c.protector) && m == Begun(c) && s.relay == ClosedRelay(c) && MissionSafety.Inv(m, c.protector) && Good(s.relay, m, c.protector)
    ensures var t := Authorized(m, s, PassOf(None, LATE), "n", LATE, c.sha, c.protector, true).0.relay;
            && "m" in t.intents && Signatures.IsIntentFor(t.intents["m"], PassOf(None, LATE), BOB, "n", LATE, c.sha)
            && t == Relay(map["m" := t.intents["m"]], [ClosedHop(c)], map["m" := ALICE])
  {
    ClosedIsOpenToAlice(m, c);
    Signatures.AuthorizableOpens(m, s, PassOf(None, LATE), "n", LATE, c, true);
    OpenedAgain(Authorized(m, s, PassOf(None, LATE), "n", LATE, c.sha, c.protector, true).0.relay, c);
  }

  lemma OpenedAgain(t: Relay, c: Crypto)
    requires "m" in t.intents && t.intents["m"].batonId == "m" && t.intents["m"].currentHolder == ALICE
    requires Signatures.Opened(ClosedRelay(c), t, t.intents["m"])
    ensures t == Relay(map["m" := t.intents["m"]], [ClosedHop(c)], map["m" := ALICE])
  {
  }

  lemma RenewedIsDiscoverable(m: MissionStore, r: Relay, i: PassIntent, c: Crypto)
    requires r == Relay(map["m" := i], [ClosedHop(c)], map["m" := ALICE])
    requires Signatures.IsIntentFor(i, PassOf(None, LATE), BOB, "n", LATE, c.sha)
    ensures IsDiscoverable(m, r, "m", Settling(i, LATE, true), PaymentOf(i))
  {
    var tx, env := PaymentOf(i), Settling(i, LATE, true);
    IntentIsDirect(None, 2, c);
    NimiqAddressIsAWallet(ALICE);
    assert i.authorizedPaymentWallets[0] == ALICE;
    assert IsAsAgreed(i, tx);
    assert GetHop([ClosedHop(c)], "m", 1) == Some(ClosedHop(c));
    DiscoveryFindsTheAgreed(i, env.first, tx);
  }

  /**
   * A renewed intent in a slot an earlier one left INVALID and without a hash: her payment is on the chain, and one call to
   * reconcile brings the mission to ARRIVED, but no sweep ever looks at it, whatever it is given to see.
   */
  lemma ARenewedIntentIsNeverSwept(c: Crypto) returns (x: Sys, env: Env, tx: Tx)
    requires IsSound(c.protector)
    ensures Reachable(x, c) && IsDiscoverable(x.coord.missions, x.coord.store.relay, "m", env, tx)
    ensures var (n, t, res) := MissionReconciled(x.coord.missions, x.coord.store, "m", env, c.protector); res.Ok? && HasArrived(n, t.relay, "m")
    ensures IsActive(x.coord, "m") && IsPassedOver(x.coord, "m", c.protector)
  {
    var i;
    x, i := RenewedLands(c);
    env, tx := Settling(i, LATE, true), PaymentOf(i);
    RenewedIsDiscoverable(x.coord.missions, x.coord.store.relay, i, c);
    ReachableIsInStep(x, c);
    ClosedSlotIsSkipped(x, i, c);
    DiscoveredPaymentArrives(x, "m", env, tx, c.protector);
  }

  lemma ClosedSlotIsSkipped(x: Sys, i: PassIntent, c: Crypto)
    requires Reachable(x, c) && IsSound(c.protector) && x.coord.missions == Begun(c) && i.sequence == 1
    requires x.coord.store.relay == Relay(map["m" := i], [ClosedHop(c)], map["m" := ALICE])
    ensures IsActive(x.coord, "m") && IsPassedOver(x.coord, "m", c.protector)
  {
    ReachableIsWhole(x, c);
    ClosedSlotAsksForNothing(x.coord, i, c);
    VisitsExactly(x.coord, "m", c.protector);
    OthersArePassedOver(x.coord, "m", c.protector);
  }

  lemma ClosedSlotAsksForNothing(d: Coord, i: PassIntent, c: Crypto)
    requires d.missions == Begun(c) && i.sequence == 1 && d.store.relay == Relay(map["m" := i], [ClosedHop(c)], map["m" := ALICE])
    ensures IsActive(d, "m") && !AsksForALook(d, "m") && !IsFinal(d.store.relay.hops, "m", 1)
  {
    IntentIsDirect(None, 2, c);
    assert GetHop([ClosedHop(c)], "m", 1) == Some(ClosedHop(c));
  }

  // ---------------------------------------------------------------- a closed intent in the tables

  lemma NoLookup(c: Crypto)
    ensures FirstLookup(Begun(c))("m", 1) == None
  {
  }

  /** Authorized, written to the tables, then closed as unpaid after its window and written again. */
  lemma WrittenAndExpired(c: Crypto) returns (z: Sys, x: Sys)
    requires IsSound(c.protector)
    ensures Reachable(x, c) && Reachable(z, c) && x.clock == LATE && x.coord.missions == z.coord.missions == Begun(c)
    ensures x.coord.store.relay == ClosedRelay(c) && z.coord.store.relay == PassedRelay(None, 2, c)
    ensures x.db == Written(z.db, x.coord.store.relay, {"m"}, FirstLookup(Begun(c)))
    ensures exists y :: Reachable(y, c) && y.coord == z.coord && z.db == Written(y.db, z.coord.store.relay, {"m"}, FirstLookup(Begun(c)))
  {
    var y := Passed(c);
    z := PersistLands(y, 2, c);
    UnpaidIsExpired(z.coord.store, c);
    x := UnprojectedLands(z, "m", Quiet(LATE), c);
    assert Begun(c).missions.Keys == {"m"};
  }

  lemma WrittenRowIsKept(z: Sys, c: Crypto)
    requires Reachable(z, c) && IsSound(c.protector) && z.coord.missions == Begun(c) && z.coord.store.relay == PassedRelay(None, 2, c)
    requires exists y :: Reachable(y, c) && y.coord == z.coord && z.db == Written(y.db, z.coord.store.relay, {"m"}, FirstLookup(Begun(c)))
    ensures "m" in z.db.passIntents && z.db.passIntents["m"] == IntentOf(None, 2, c) && Fits(z.db, z.coord.store.relay)
  {
    var y :| Reachable(y, c) && y.coord == z.coord && z.db == Written(y.db, z.coord.store.relay, {"m"}, FirstLookup(Begun(c)));
    ReachableIsInStep(y, c);
    ReachableIsInStep(z, c);
    TablesFitLive(y, c.protector);
    TablesFitLive(z, c.protector);
    ReachableIsValid(z, c);
    PassedIsWritten(y.db, c);
  }

  lemma PassedIsWritten(t: Tables, c: Crypto)
    requires Fits(t, PassedRelay(None, 2, c)) && RelaySafety.Inv(PassedRelay(None, 2, c))
    ensures var db := Written(t, PassedRelay(None, 2, c), {"m"}, FirstLookup(Begun(c)));
            "m" in db.passIntents && db.passIntents["m"] == IntentOf(None, 2, c)
  {
    NoLookup(c);
    IntentIsDirect(None, 2, c);
    OpenIntentsSurvive(t, PassedRelay(None, 2, c), {"m"}, FirstLookup(Begun(c)));
  }

  lemma ClosedFits(t: Tables, c: Crypto)
    requires Fits(t, PassedRelay(None, 2, c)) && RelaySafety.Inv(PassedRelay(None, 2, c)) && RelaySafety.Inv(ClosedRelay(c))
    ensures Fits(t, ClosedRelay(c)) && IsCommitted(ClosedRelay(c)) && CurrentSequence(ClosedRelay(c).hops, "m") == 0
  {
    assert forall b, k :: GetHop(PassedRelay(None, 2, c).hops, b, k) == None;
    FitsLater(t, PassedRelay(None, 2, c), ClosedRelay(c));
  }

  lemma RowComesBack(t: Tables, r: Relay, c: Crypto)
    requires "m" in t.passIntents && t.passIntents["m"] == IntentOf(None, 2, c) && RelaySafety.Inv(ClosedRelay(c)) && Fits(t, ClosedRelay(c))
    requires IsCommitted(ClosedRelay(c)) && CurrentSequence(ClosedRelay(c).hops, "m") == 0
    requires LoadedFrom(Written(t, ClosedRelay(c), {"m"}, FirstLookup(Begun(c))), r)
    ensures "m" in r.intents && r.intents["m"] == IntentOf(None, 2, c)
  {
    IntentIsDirect(None, 2, c);
    IntentsReloadedExactly(t, ClosedRelay(c), {"m"}, FirstLookup(Begun(c)), r, "m");
  }

  lemma SomeLoad(x: Sys, c: Crypto) returns (r: Relay)
    requires Reachable(x, c) && IsSound(c.protector)
    ensures LoadedFrom(x.db, r)
  {
    ReachableIsInStep(x, c);
    r := LoadExists(x.db);
  }

  /** Alice's intent runs out unpaid and is closed; the process restarts, and the closed intent is open again. */
  lemma AClosedIntentComesBack(c: Crypto) returns (before: Sys, after: Sys)
    requires IsSound(c.protector)
    ensures Reachable(before, c) && Reachable(after, c) && before.coord.store.relay.intents == map[]
    ensures "m" in after.coord.store.relay.intents && after.coord.store.relay.intents["m"] == IntentOf(None, 2, c)
    ensures IsStale(IntentOf(None, 2, c), after.clock)
  {
    var z;
    z, before := WrittenAndExpired(c);
    WrittenRowIsKept(z, c);
    ReachableIsValid(z, c);
    ReachableIsValid(before, c);
    ClosedFits(z.db, c);
    var r := SomeLoad(before, c);
    after := CrashLands(before, r, LATE, c);
    RowComesBack(z.db, r, c);
    IntentIsDirect(None, 2, c);
  }
}
