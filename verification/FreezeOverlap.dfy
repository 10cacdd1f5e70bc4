/**
 * A rail freeze proves its rails for the intent it found, and writes them into the one that is open when the chain has
 * answered. The other calls of the mission may have renewed it in between.
 */
module FreezeOverlap {
  import opened Domain
  import opened PaymentRails
  import opened Relay
  import opened RelayService
  import opened MissionService
  import MissionSafety
  import opened MissionOps
  import opened Missions
  import opened Coordinator
  import opened System
  import opened Reachability
  import opened Scenario
  import Provenance
  import Policy

  /** The chain shows the rail as an HTLC funded by a wallet of the intent. */
  predicate IsProven(i: PassIntent, rail: string, rpc: Rpc) {
    VerifyHtlcRail(i, rail, None, rpc) == Reply(true)
  }

  lemma MoreWalletsProveMore(captured: PassIntent, live: PassIntent, rail: string, rpc: Rpc)
    requires FrozenWallets(captured) <= FrozenWallets(live) && IsProven(captured, rail, rpc)
    ensures IsProven(live, rail, rpc)
  {
  }

  /** A chain on which the sender has funded every address as an HTLC. */
  function FundedBy(sender: string): Rpc {
    Rpc(_ => Reply(None), Reply(0), Some(rail => Reply([Funding(sender, rail)])),
        Some(rail => Reply(Some(Account("htlc", Some(sender), Some(1))))))
  }

  function Funding(sender: string, rail: string): Tx {
    Tx("f", sender, rail, 1, Some(0), None, None, None)
  }

  lemma FundingProves(i: PassIntent, sender: string, rail: string)
    requires AddressKey(rail) != "" && AddressKey(sender) != ""
    ensures IsProven(i, rail, FundedBy(sender)) <==> AddressKey(sender) in FrozenWallets(i)
  {
    var history := [Funding(sender, rail)];
    assert IsLiveFunding(history[0], AddressKey(rail), sender, 1);
    assert SquashType("htlc") == "htlc" by { HtlcIsPlain(); }
  }

  lemma HtlcIsPlain()
    ensures SquashType("htlc") == "htlc"
  {
    assert "htlc"[1..] == "tlc" && "tlc"[1..] == "lc" && "lc"[1..] == "c" && "c"[1..] == "";
  }

  /**
   * Whatever the chain shows, rails proven for the captured intent are proven for the live one, exactly when the live
   * intent pays from all wallets of the captured one. Nothing in the code looks at that.
   */
  lemma ProofsCarryOverExactlyWhen(captured: PassIntent, live: PassIntent)
    requires "" !in FrozenWallets(captured)
    ensures (forall rail, rpc | IsProven(captured, rail, rpc) :: IsProven(live, rail, rpc)) <==> FrozenWallets(captured) <= FrozenWallets(live)
  {
    if FrozenWallets(captured) <= FrozenWallets(live) {
      forall rail, rpc | IsProven(captured, rail, rpc) ensures IsProven(live, rail, rpc) { MoreWalletsProveMore(captured, live, rail, rpc); }
    } else {
      var key :| key in FrozenWallets(captured) && key !in FrozenWallets(live);
      var sender :| sender in Sources(captured) && RailAddress(sender).None? && AddressKey(sender) == key;
      assert AddressKey("R") == "R";
      FundingProves(captured, sender, "R");
      FundingProves(live, sender, "R");
    }
  }

  // ---------------------------------------------------------------- a renewal without Carol

  const WINDOW := Policy.INTENT_VALIDITY_WINDOW_MS
  const RAIL := "R"

  /** Alice authorizes at 2, from Carol's wallet too. */
  function Joint(): AuthorizeRequest {
    PassOf(None, 2).(wallets := [CAROL])
  }

  function JointIntent(c: Crypto): PassIntent {
    NewIntent(EMPTY, PassRequest("m", ALICE, BOB, true, [CAROL], None), "n", 2, c.sha)
  }

  /** And renews from her own alone. */
  function Renewal(c: Crypto): PassIntent {
    RenewalOf("n2", WINDOW + 3, c)
  }

  lemma Keys()
    ensures AddressKey(ALICE) == ALICE && AddressKey(CAROL) == CAROL && ALICE != CAROL && AddressKey(RAIL) == RAIL
  {
    assert ALICE[2] != CAROL[2];
    assert ALICE[1..] == "Q1" && "Q1"[1..] == "1" && "1"[1..] == "";
    assert CAROL[1..] == "Q3" && "Q3"[1..] == "3" && "3"[1..] == "";
    assert RAIL[1..] == "";
  }

  lemma JointWallets(c: Crypto)
    ensures FrozenWallets(JointIntent(c)) == {ALICE, CAROL} && FrozenRails(JointIntent(c)) == {}
    ensures JointIntent(c).createdAt == 2 && IsUnpaid(JointIntent(c), WINDOW + 3)
  {
    Keys();
    Provenance.NewIntentWallets(EMPTY, PassRequest("m", ALICE, BOB, true, [CAROL], None), "n", 2, c.sha);
    assert CurrentSequence([], "m") == 0;
    var wallets := [ALICE] + [CAROL];
    assert ALICE in wallets && CAROL in wallets && forall w | w in wallets :: w == ALICE || w == CAROL;
  }

  lemma RenewalWallets(c: Crypto)
    ensures Renewal(c).authorizedPaymentWallets == [ALICE] && FrozenWallets(Renewal(c)) == {ALICE}
    ensures Renewal(c).batonId == "m" && IsGiven(Renewal(c).recipientData)
  {
    Keys();
    Provenance.NewIntentWallets(Relay(map[], [], map["m" := ALICE]), PassRequest("m", ALICE, BOB, true, [], None), "n2", WINDOW + 3, c.sha);
    assert [ALICE] + [] == [ALICE] && [ALICE][1..] == [];
    assert DistinctWallets([ALICE], {}) == [ALICE] + DistinctWallets([], {ALICE});
    assert ALICE in [ALICE];
  }

  lemma JointComputes(m: MissionStore, s: Store, c: Crypto)
    requires IsSound(c.protector) && m == Begun(c) && s.relay == EMPTY
    ensures var (t, res) := Authorized(m, s, Joint(), "n", 2, c.sha, c.protector, true);
            res == Ok(JointIntent(c)) && t.relay == Relay(map["m" := JointIntent(c)], [], map["m" := ALICE])
  {
    assert ALICE[2] != BOB[2];
    assert PassChecked(m, EMPTY, Joint()) == Ok(None);
  }

  lemma JointPassed(c: Crypto) returns (x: Sys)
    requires IsSound(c.protector)
    ensures Reachable(x, c) && x.clock == 2 && x.coord.missions == Begun(c)
    ensures x.coord.store.relay == Relay(map["m" := JointIntent(c)], [], map["m" := ALICE])
  {
    var w := Opened(c);
    Keys();
    JointComputes(w.coord.missions, w.coord.store, c);
    x := AuthorizeLands(w, Joint(), "n", 2, true, c);
  }

  /**
   * A freeze finds the joint intent inside its window and proves a rail that Carol funded. Before it writes, Alice renews
   * without Carol; the rail is frozen into the renewed intent, for which the same chain does not prove it.
   */
  lemma ARailOutlivesItsProof(c: Crypto) returns (x: Sys, y: Sys)
    requires IsSound(c.protector)
    ensures Reachable(x, c) && Reachable(y, c) && x.coord.store.relay.intents == map["m" := JointIntent(c)] && !IsStale(JointIntent(c), WINDOW + 2)
    ensures y.clock == WINDOW + 3 && y.coord.store.relay.intents == map["m" := Renewal(c)]
    ensures ProveRails(JointIntent(c), PendingRails(JointIntent(c), [RAIL]), FundedBy(CAROL)) == Ok(()) && PendingRails(JointIntent(c), [RAIL]) == [RAIL]
    ensures var res := Frozen(y.coord.store, "m", [RAIL]).1; res.Ok? && FrozenRails(res.value) == {RAIL} && FrozenWallets(res.value) == {ALICE}
    ensures !IsProven(Renewal(c), RAIL, FundedBy(CAROL))
  {
    x := JointPassed(c);
    JointWallets(c);
    RenewalWallets(c);
    RenewalComputes(x.coord.missions, x.coord.store, JointIntent(c), "n2", WINDOW + 3, c);
    y := AuthorizeLands(x, PassOf(None, WINDOW + 3), "n2", WINDOW + 3, true, c);
    Keys();
    FundingProves(JointIntent(c), CAROL, RAIL);
    FundingProves(Renewal(c), CAROL, RAIL);
    RailIsPending(c);
    RailIsFrozen(y.coord.store, c);
  }

  lemma RailIsPending(c: Crypto)
    requires IsProven(JointIntent(c), RAIL, FundedBy(CAROL))
    ensures PendingRails(JointIntent(c), [RAIL]) == [RAIL]
    ensures ProveRails(JointIntent(c), [RAIL], FundedBy(CAROL)) == Ok(())
  {
    Keys();
    JointWallets(c);
    OneRail(FrozenRails(JointIntent(c)));
    assert [RAIL][1..] == [];
  }

  lemma OneRail(frozen: set<string>)
    requires frozen == {}
    ensures Without(DistinctWallets([RAIL], {}), frozen) == [RAIL]
  {
    Keys();
    assert [RAIL][1..] == [];
  }

  lemma RailIsFrozen(s: Store, c: Crypto)
    requires s.relay == Relay(map["m" := Renewal(c)], [], map["m" := ALICE])
    ensures var res := Frozen(s, "m", [RAIL]).1; res.Ok? && FrozenRails(res.value) == {RAIL} && FrozenWallets(res.value) == {ALICE}
  {
    RenewalWallets(c);
    RailIsAdded();
    assert GetHop([], "m", Renewal(c).sequence) == None;
  }

  lemma RailIsAdded()
    ensures var sources := AddRails([ALICE], [RAIL]);
            |sources| == 2 && WalletKeys(sources) == {ALICE} && RailKeys(sources) == {RAIL}
  {
    Keys();
    NimiqAddressIsAWallet(ALICE);
    var marker := RailMarker(RAIL);
    MarkerRoundTrip(RAIL);
    assert ToLower(ALICE)[0] == 'n' && ToLower(marker)[0] == 'r';
    assert !HoldsMarker([ALICE], marker) && marker != RAIL_PREFIX;
    assert [RAIL][1..] == [];
    var sources := AddRails([ALICE], [RAIL]);
    assert AddRail([ALICE], RAIL) == [ALICE] + [marker] == [ALICE, marker];
    assert AddRails(AddRail([ALICE], RAIL), []) == AddRail([ALICE], RAIL);
    assert sources == [ALICE, marker];
    assert sources[0] in sources && sources[1] in sources && forall w | w in sources :: w == ALICE || w == marker;
  }
}
