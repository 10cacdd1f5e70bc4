/** A small cast and the states their missions pass through, for exhibiting whole runs. */
module Scenario {
  import opened Domain
  import opened PaymentRails
  import opened Relay
  import opened RelayService
  import opened RelayRuns
  import opened PgRelayTables
  import opened Missions
  import opened MissionService
  import MissionSafety
  import opened MissionOps
  import opened Coordinator
  import opened System
  import opened Reachability
  import Policy

  const ALICE := "NQ1"
  const BOB := "NQ2"
  const CAROL := "NQ3"

  /** Alice signs for her mission's next hop, or to open the mission. */
  function Alices(action: MissionAction, v: Option<string>): WalletAction {
    WalletAction(action, ALICE, Some("m"), v, Some(1))
  }

  const OPENING := WalletAction(CREATE_MISSION, ALICE, None, None, None)

  /** The process has not swept yet. */
  predicate IsFresh(x: Sys) {
    x.sweeps == [] && x.coord.settled == {} && x.coord.attempts == map[]
  }

  // ---------------------------------------------------------------- opening a mission

  /** Alice's mission to Bob, who was named at creation. */
  function Opening(c: Crypto): Mission {
    NewMission("m", ALICE, Some(KnownTarget(BOB, true, "iv")), 1, c.protector)
  }

  function Begun(c: Crypto): MissionStore {
    MissionStore(map["m" := Opening(c)], [], [])
  }

  lemma Opened(c: Crypto) returns (x: Sys)
    requires IsSound(c.protector)
    ensures Reachable(x, c) && x.clock == 1 && IsFresh(x) && x.coord.missions == Begun(c) && x.coord.store == START.coord.store
  {
    assert ALICE[2] != BOB[2];
    StartIsReachable(c);
    x := OpLands(START, OpenMission("m", OPENING, Some(KnownTarget(BOB, true, "iv"))), 1, c);
  }

  // ---------------------------------------------------------------- introducing Carol

  const INTRODUCTION :=
    Invitation("i", "m", 1, ALICE, None, "t", INVITED, 2, 2 + INVITATION_TTL_MS, None, None, None, None)

  const ACCEPTANCE :=
    INTRODUCTION.(candidate := Some(CAROL), status := ACCEPTED, acceptedAt := Some(3), passDeadlineAt := Some(3 + ACCEPTED_PASS_DEADLINE_MS))

  const WITHDRAWAL := INTRODUCTION.(status := WITHDRAWN, closedAt := Some(3))

  function WithInvitation(c: Crypto, v: Invitation, touched: int): MissionStore {
    MissionStore(map["m" := Opening(c).(updatedAt := touched)], [v], [])
  }

  const INVITING := Invite("m", Alices(CREATE_INVITATION, None), None, "i", "t")
  const ACCEPTING := Accept("t", WalletAction(ACCEPT_INVITATION, CAROL, Some("m"), Some("i"), Some(1)))
  const WITHDRAWING := Withdraw("i", Alices(WITHDRAW_INVITATION, Some("i")))

  lemma InvitingComputes(c: Crypto, r: Relay)
    ensures ApplyOp(Begun(c), r, INVITING, 2, c.protector) == WithInvitation(c, INTRODUCTION, 2)
  {
    assert [] + [INTRODUCTION] == [INTRODUCTION];
  }

  lemma Invited(c: Crypto) returns (x: Sys)
    requires IsSound(c.protector)
    ensures Reachable(x, c) && x.clock == 2 && IsFresh(x) && x.coord.store == START.coord.store
    ensures x.coord.missions == WithInvitation(c, INTRODUCTION, 2)
  {
    var w := Opened(c);
    InvitingComputes(c, w.coord.store.relay);
    x := OpLands(w, INVITING, 2, c);
  }

  lemma AcceptingComputes(c: Crypto, r: Relay)
    requires r.hops == []
    ensures ApplyOp(WithInvitation(c, INTRODUCTION, 2), r, ACCEPTING, 3, c.protector) == WithInvitation(c, ACCEPTANCE, 3)
  {
    assert ALICE[2] != CAROL[2];
    assert WithInvitation(c, INTRODUCTION, 2).invitations[0] == INTRODUCTION;
    assert [INTRODUCTION][0 := ACCEPTANCE] == [ACCEPTANCE];
  }

  lemma Introduced(c: Crypto) returns (x: Sys)
    requires IsSound(c.protector)
    ensures Reachable(x, c) && x.clock == 3 && IsFresh(x) && x.coord.store == START.coord.store
    ensures x.coord.missions == WithInvitation(c, ACCEPTANCE, 3)
  {
    var w := Invited(c);
    AcceptingComputes(c, w.coord.store.relay);
    x := OpLands(w, ACCEPTING, 3, c);
  }

  lemma WithdrawingComputes(c: Crypto, r: Relay)
    requires r.intents == map[]
    ensures ApplyOp(WithInvitation(c, INTRODUCTION, 2), r, WITHDRAWING, 3, c.protector) == WithInvitation(c, WITHDRAWAL, 3)
  {
    assert WithInvitation(c, INTRODUCTION, 2).invitations[0] == INTRODUCTION;
    assert [INTRODUCTION][0 := WITHDRAWAL] == [WITHDRAWAL];
  }

  lemma Withdrew(c: Crypto) returns (x: Sys)
    requires IsSound(c.protector)
    ensures Reachable(x, c) && x.clock == 3 && IsFresh(x) && x.coord.store == START.coord.store
    ensures x.coord.missions == WithInvitation(c, WITHDRAWAL, 3)
  {
    var w := Invited(c);
    WithdrawingComputes(c, w.coord.store.relay);
    x := OpLands(w, WITHDRAWING, 3, c);
  }

  // ---------------------------------------------------------------- authorizing and sending

  /** Alice's signed request to pay Bob, directly or along an invitation. */
  function PassOf(v: Option<string>, at: int): AuthorizeRequest {
    AuthorizeRequest("m", v, Alices(AUTHORIZE_PASS, v), [], at)
  }

  function IntentOf(v: Option<string>, at: int, c: Crypto): PassIntent {
    NewIntent(EMPTY, PassRequest("m", ALICE, BOB, true, [], v), "n", at, c.sha)
  }

  function PassedRelay(v: Option<string>, at: int, c: Crypto): Relay {
    Relay(map["m" := IntentOf(v, at, c)], [], map["m" := ALICE])
  }

  function SentRelay(v: Option<string>, at: int, c: Crypto): Relay {
    PassedRelay(v, at, c).(hops := [HopFor(IntentOf(v, at, c), Some("h"), HopStatus.PENDING)])
  }

  lemma IntentIsDirect(v: Option<string>, at: int, c: Crypto)
    ensures var i := IntentOf(v, at, c);
            && i.batonId == "m" && i.sequence == 1 && i.currentHolder == ALICE && i.recipient == BOB && i.invitationId == v
            && i.createdAt == at && IsGiven(i.recipientData) && AddressKey(ALICE) in FrozenWallets(i)
  {
    assert CurrentSequence([], "m") == 0;
    NimiqAddressIsAWallet(ALICE);
    assert IntentOf(v, at, c).authorizedPaymentWallets[0] == ALICE;
  }

  /** The mission is Alice's to Bob and not yet delivered. */
  predicate IsTheirs(m: MissionStore, c: Crypto) {
    "m" in m.missions && m.missions["m"] == Opening(c).(updatedAt := m.missions["m"].updatedAt)
  }

  lemma PassIsAuthorized(m: MissionStore, s: Store, v: Option<string>, at: int, c: Crypto)
    requires IsSound(c.protector) && IsTheirs(m, c) && s.relay == EMPTY && PassChecked(m, EMPTY, PassOf(v, at)) == Ok(v)
    ensures var (t, res) := Authorized(m, s, PassOf(v, at), "n", at, c.sha, c.protector, true);
            res == Ok(IntentOf(v, at, c)) && t.relay == PassedRelay(v, at, c)
  {
    CreatedFirst(s, v, at, c);
    assert RequestFor(PassOf(v, at), BOB, v) == PassRequest("m", ALICE, BOB, true, [], v);
  }

  lemma CreatedFirst(s: Store, v: Option<string>, at: int, c: Crypto)
    requires s.relay == EMPTY
    ensures var (t, res) := Created(s, PassRequest("m", ALICE, BOB, true, [], v), "n", at, c.sha);
            res == Ok(IntentOf(v, at, c)) && t.relay == PassedRelay(v, at, c) && IsGiven(res.value.recipientData)
  {
    assert ALICE[2] != BOB[2];
  }

  /** The intent Alice's renewed request opens when her earlier one has run out unpaid. */
  function RenewalOf(nonce: string, at: int, c: Crypto): PassIntent {
    NewIntent(Relay(map[], [], map["m" := ALICE]), PassRequest("m", ALICE, BOB, true, [], None), nonce, at, c.sha)
  }

  function RenewedRelay(nonce: string, at: int, c: Crypto): Relay {
    Relay(map["m" := RenewalOf(nonce, at, c)], [], map["m" := ALICE])
  }

  predicate IsUnpaid(i: PassIntent, at: int) {
    && i.batonId == "m" && i.sequence == 1 && i.currentHolder == ALICE && i.recipient == BOB && i.invitationId == None
    && IsGiven(i.recipientData) && IsStale(i, at)
  }

  lemma CreatedAfresh(t: Store, nonce: string, at: int, c: Crypto)
    requires t.relay == Relay(map[], [], map["m" := ALICE])
    ensures var (u, res) := Created(t, PassRequest("m", ALICE, BOB, true, [], None), nonce, at, c.sha);
            res == Ok(RenewalOf(nonce, at, c)) && u.relay == RenewedRelay(nonce, at, c) && IsGiven(res.value.recipientData)
  {
    assert ALICE[2] != BOB[2];
  }

  lemma UnpaidIsClosed(s: Store, i: PassIntent, at: int)
    requires s.relay == Relay(map["m" := i], [], map["m" := ALICE]) && IsUnpaid(i, at)
    ensures CancelledPass(s, "m").1 == Ok(()) && CancelledPass(s, "m").0.relay == Relay(map[], [], map["m" := ALICE])
    ensures !HasRecordedBroadcast(s.relay, "m")
  {
    assert s.relay.intents - {"m"} == map[];
    assert GetHop([], "m", 1) == None;
  }

  lemma RenewalComputes(m: MissionStore, s: Store, i: PassIntent, nonce: string, at: int, c: Crypto)
    requires IsSound(c.protector) && m == Begun(c) && s.relay == Relay(map["m" := i], [], map["m" := ALICE]) && IsUnpaid(i, at)
    ensures var (t, res) := Authorized(m, s, PassOf(None, at), nonce, at, c.sha, c.protector, true);
            res == Ok(RenewalOf(nonce, at, c)) && t.relay == RenewedRelay(nonce, at, c)
  {
    assert PassChecked(m, s.relay, PassOf(None, at)) == Ok(None);
    UnpaidIsClosed(s, i, at);
    CreatedAfresh(CancelledPass(s, "m").0, nonce, at, c);
    assert RequestFor(PassOf(None, at), BOB, None) == PassRequest("m", ALICE, BOB, true, [], None);
  }

  lemma PassLands(x: Sys, v: Option<string>, at: int, c: Crypto) returns (y: Sys)
    requires Reachable(x, c) && IsSound(c.protector) && x.clock <= at && x.coord.store.relay == EMPTY
    requires IsTheirs(x.coord.missions, c) && PassChecked(x.coord.missions, EMPTY, PassOf(v, at)) == Ok(v)
    ensures Reachable(y, c) && y.clock == at && (IsFresh(x) ==> IsFresh(y)) && y.coord.missions == x.coord.missions
    ensures y.coord.store.relay == PassedRelay(v, at, c)
  {
    PassIsAuthorized(x.coord.missions, x.coord.store, v, at, c);
    y := AuthorizeLands(x, PassOf(v, at), "n", at, true, c);
  }

  lemma SendIsRecorded(m: MissionStore, s: Store, v: Option<string>, at: int, sent: int, c: Crypto)
    requires s.relay == PassedRelay(v, at, c) && BroadcastChecked(m, s.relay, "m", v).Ok? && at <= sent <= at + 10
    ensures var (t, res) := BroadcastAttached(m, s, "m", v, "h", sent, true); res.Ok? && t.relay == SentRelay(v, at, c)
  {
    IntentIsDirect(v, at, c);
    var h := HopFor(IntentOf(v, at, c), Some("h"), HopStatus.PENDING);
    assert PutHop([], h) == [h];
  }

  lemma SendLands(y: Sys, v: Option<string>, at: int, sent: int, c: Crypto) returns (z: Sys)
    requires Reachable(y, c) && IsSound(c.protector) && y.clock <= sent && at <= sent <= at + 10
    requires y.coord.store.relay == PassedRelay(v, at, c) && BroadcastChecked(y.coord.missions, y.coord.store.relay, "m", v).Ok?
    ensures Reachable(z, c) && z.clock == sent && (IsFresh(y) ==> IsFresh(z)) && z.coord.missions == y.coord.missions
    ensures z.coord.store.relay == SentRelay(v, at, c)
  {
    SendIsRecorded(y.coord.missions, y.coord.store, v, at, sent, c);
    z := BroadcastLands(y, "m", v, "h", sent, true, c);
  }

  /** Opened, then authorized directly. */
  lemma Passed(c: Crypto) returns (y: Sys)
    requires IsSound(c.protector)
    ensures Reachable(y, c) && y.clock == 2 && IsFresh(y) && y.coord.missions == Begun(c) && y.coord.store.relay == PassedRelay(None, 2, c)
  {
    var x := Opened(c);
    assert PassChecked(Begun(c), EMPTY, PassOf(None, 2)) == Ok(None);
    y := PassLands(x, None, 2, c);
  }

  /** Opened, authorized and sent directly. */
  lemma Sent(c: Crypto) returns (z: Sys)
    requires IsSound(c.protector)
    ensures Reachable(z, c) && z.clock == 3 && IsFresh(z) && z.coord.missions == Begun(c) && z.coord.store.relay == SentRelay(None, 2, c)
  {
    var y := Passed(c);
    IntentIsDirect(None, 2, c);
    z := SendLands(y, None, 2, 3, c);
  }

  lemma SentIsRecorded(r: Relay, v: Option<string>, at: int, c: Crypto)
    requires r == SentRelay(v, at, c)
    ensures HasRecordedBroadcast(r, "m") && r.intents["m"] == IntentOf(v, at, c)
    ensures GetHop(r.hops, "m", r.intents["m"].sequence) == Some(HopFor(IntentOf(v, at, c), Some("h"), HopStatus.PENDING))
  {
    IntentIsDirect(v, at, c);
    var h := HopFor(IntentOf(v, at, c), Some("h"), HopStatus.PENDING);
    assert GetHop([h], "m", 1) == Some(h);
  }

  // ---------------------------------------------------------------- the chain

  function PaymentOf(i: PassIntent): Tx {
    Tx("h", ALICE, BOB, ONE_NIM_IN_LUNA, Some(Policy.NIMIQ_POLICY.genesisBlockNumber), None, None, i.recipientData)
  }

  /** A chain that knows one transaction and stands the given number of blocks after genesis. */
  function Chain(tx: Tx, blocks: int): Rpc {
    Rpc(hash => if hash == tx.hash then Reply(Some(tx)) else Reply(None), Reply(Policy.NIMIQ_POLICY.genesisBlockNumber + blocks),
        Some(_ => Reply([tx])), None)
  }

  /** A reconcile at which the payment is final; the mission store may be out of reach. */
  function Settling(i: PassIntent, at: int, projection: bool): Env {
    Env(at, Chain(PaymentOf(i), 60), Chain(PaymentOf(i), 60), true, true, projection, true)
  }
}
