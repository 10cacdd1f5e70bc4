/** Which action a viewer is offered, and that an offered payment is one the coordinator accepts. */
module MissionView {
  import opened Domain
  import opened Relay
  import opened RelayService
  import opened RelaySafety
  import opened Missions
  import opened MissionService
  import MissionSafety
  import opened Coordinator
  import opened System
  import opened Delivery
  import Provenance
  import HopCommitment
  import Policy

  datatype ViewerRole = CREATOR | HOLDER | PARTICIPANT | INVITEE | TARGET | UNLISTED_VIEWER

  datatype PrimaryAction =
    SHARE_CLAIM | CREATE_INVITATION | WAIT | SEND_1_NIM | PASS_1_NIM | REROUTE | VIEW_ROUTE | START_NEW_ROUTE

  /** Everything the view is composed from; bridges are the wallets behind the route's finalized invitations. */
  datatype ViewInput = ViewInput(
    mission: Mission,
    invitation: Option<Invitation>,
    claim: Option<Claim>,
    route: seq<Hop>,
    viewer: Option<string>,
    bridges: set<string>,
    fallback: bool,
    hasActiveIntent: bool,
    activeIntentStale: bool,
    activeIntentHasBroadcast: bool,
    now: int)

  predicate IsOnRoute(route: seq<Hop>, wallet: string) {
    exists i | 0 <= i < |route| :: route[i].currentHolder == wallet || route[i].recipient == wallet
  }

  function RoleOf(v: ViewInput, p: Protector): ViewerRole {
    if v.viewer.None? then UNLISTED_VIEWER
    else
      var viewer := v.viewer.value;
      var invited := v.invitation.Some? && v.invitation.value.candidate == Some(viewer);
      if viewer == v.mission.creator then CREATOR
      else if v.mission.targetHmac == Some(p.hmac(viewer)) then TARGET
      else if v.mission.status.ACTIVE? && viewer == v.mission.currentHolder then HOLDER
      else if invited && IsOpen(v.invitation.value) then INVITEE
      else if invited && v.invitation.value.status.COMPLETED? then PARTICIPANT
      else if IsOnRoute(v.route, viewer) || viewer in v.bridges then PARTICIPANT
      else if v.fallback then PARTICIPANT
      else UNLISTED_VIEWER
  }

  predicate HasUnprojectedFinal(v: ViewInput) {
    exists i | 0 <= i < |v.route| :: v.route[i].status.FINAL? && v.route[i].sequence == v.mission.currentSequence + 1
  }

  predicate MayReplaceIntent(v: ViewInput) {
    !v.hasActiveIntent || (v.activeIntentStale && !v.activeIntentHasBroadcast)
  }

  function PrimaryActionOf(v: ViewInput, p: Protector): Option<PrimaryAction> {
    var role := RoleOf(v, p);
    var isHolder := v.viewer == Some(v.mission.currentHolder);
    var bound := v.mission.targetHmac.Some? && v.mission.targetCiphertext.Some?;
    if v.mission.status.CANCELLED? then None
    else if v.mission.status.ARRIVED? then
      Some(if role in {CREATOR, HOLDER, PARTICIPANT, TARGET} then START_NEW_ROUTE else PrimaryAction.VIEW_ROUTE)
    else if HasUnprojectedFinal(v) then
      if isHolder || role.INVITEE? then Some(WAIT) else if role.UNLISTED_VIEWER? then None else Some(PrimaryAction.VIEW_ROUTE)
    else if MissionActivity(v.mission, v.now).STALLED? then
      Some(if role in {CREATOR, HOLDER, PARTICIPANT} then REROUTE else PrimaryAction.VIEW_ROUTE)
    else if isHolder then HolderAction(v, bound)
    else if role.INVITEE? then if v.invitation.Some? && v.invitation.value.status.ACCEPTED? then Some(WAIT) else None
    else if role.UNLISTED_VIEWER? then None
    else Some(PrimaryAction.VIEW_ROUTE)
  }

  function HolderAction(v: ViewInput, bound: bool): Option<PrimaryAction> {
    if !bound then Some(SHARE_CLAIM)
    else if v.invitation.None? then
      if v.claim.None? || v.claim.value.status.CLAIMED? then Some(if MayReplaceIntent(v) then SEND_1_NIM else WAIT)
      else Some(PrimaryAction.CREATE_INVITATION)
    else if v.invitation.value.status.EXPIRED? && v.invitation.value.sequence == v.mission.currentSequence + 1 then Some(PrimaryAction.CREATE_INVITATION)
    else if v.invitation.value.status.ACCEPTED? && MayReplaceIntent(v) then Some(PASS_1_NIM)
    else Some(WAIT)
  }

  // ---------------------------------------------------------------- gathering the input

  function RouteOf(hops: seq<Hop>, id: string): seq<Hop> {
    if |hops| == 0 then [] else (if hops[0].batonId == id then [hops[0]] else []) + RouteOf(hops[1..], id)
  }

  predicate IsConfirmed(h: Hop) {
    h.status.FINAL? && h.confirmedAt.Some?
  }

  function LatestConfirmed(route: seq<Hop>): Option<Hop> {
    if |route| == 0 then None
    else
      var rest := LatestConfirmed(route[1..]);
      if IsConfirmed(route[0]) && (rest.None? || route[0].sequence >= rest.value.sequence) then Some(route[0]) else rest
  }

  /** The open invitation; else the one behind the latest confirmed hop; else, for a recovering holder, the next sequence's. */
  function ShownInvitation(m: MissionStore, mission: Mission, route: seq<Hop>, viewer: Option<string>): Option<Invitation> {
    var open := OpenInvitation(m, mission.id);
    var latest := LatestConfirmed(route);
    if open.Some? then open
    else if latest.Some? && IsGiven(latest.value.invitationId) then FindInvitation(m.invitations, latest.value.invitationId.value)
    else if latest.None? && viewer in {Some(mission.creator), Some(mission.currentHolder)} then
      InvitationForSequence(m, mission.id, mission.currentSequence + 1)
    else None
  }

  function BridgeWallet(m: MissionStore, h: Hop, shown: Option<Invitation>): Option<string> {
    if !IsConfirmed(h) || !IsGiven(h.invitationId) then None
    else
      var v := if shown.Some? && shown.value.id == h.invitationId.value then shown else FindInvitation(m.invitations, h.invitationId.value);
      if v.Some? then v.value.candidate else None
  }

  function Gathered(m: MissionStore, r: Relay, mission: Mission, viewer: Option<string>, authorized: bool, now: int): ViewInput {
    var route := RouteOf(r.hops, mission.id);
    var shown := ShownInvitation(m, mission, route, viewer);
    var active := mission.id in r.intents;
    ViewInput(mission, shown, LatestClaim(m.claims, mission.id), route, viewer,
              set i | 0 <= i < |route| && BridgeWallet(m, route[i], shown).Some? :: BridgeWallet(m, route[i], shown).value,
              mission.status.ARRIVED? && authorized && viewer.Some?,
              active, active && IsStale(r.intents[mission.id], now), HasRecordedBroadcast(r, mission.id), now)
  }

  function OfferedAction(m: MissionStore, r: Relay, id: string, viewer: Option<string>, authorized: bool, now: int, p: Protector)
    : Result<Option<PrimaryAction>>
  {
    if id !in m.missions then Err(MISSION_NOT_FOUND)
    else Ok(PrimaryActionOf(Gathered(m, r, m.missions[id], viewer, authorized, now), p))
  }

  // ---------------------------------------------------------------- an offered payment is accepted

  lemma {:induction false} RouteIsTheHops(hops: seq<Hop>, id: string)
    ensures forall h | h in RouteOf(hops, id) :: h in hops && h.batonId == id
    ensures forall h | h in hops && h.batonId == id :: h in RouteOf(hops, id)
  {
    if |hops| > 0 { RouteIsTheHops(hops[1..], id); }
  }

  lemma {:induction false} LatestIsConfirmed(route: seq<Hop>)
    ensures LatestConfirmed(route).Some? ==> LatestConfirmed(route).value in route && IsConfirmed(LatestConfirmed(route).value)
  {
    if |route| > 0 { LatestIsConfirmed(route[1..]); }
  }

  /** With no unprojected FINAL on the route there is no FINAL hop at all, as long as the mission is ACTIVE. */
  lemma ActiveHasNothingFinal(m: MissionStore, r: Relay, id: string, viewer: Option<string>, authorized: bool, at: int, p: Protector)
    requires MissionSafety.Inv(m, p) && Good(r, m, p) && id in m.missions && m.missions[id].status.ACTIVE?
    requires !HasUnprojectedFinal(Gathered(m, r, m.missions[id], viewer, authorized, at))
    ensures !IsFinal(r.hops, id, 1) && forall h | h in RouteOf(r.hops, id) :: !h.status.FINAL?
  {
    assert MissionSafety.MissionOk(id, m.missions[id], p);
    NothingNextIsFinal(m, r, m.missions[id], viewer, authorized, at);
    RouteIsTheHops(r.hops, id);
    forall h | h in RouteOf(r.hops, id) ensures !h.status.FINAL? { OnlyTheFirstIsFinal(r, m, h, p); }
    SlotHolds(r.hops, id, 1);
  }

  lemma OnlyTheFirstIsFinal(r: Relay, m: MissionStore, h: Hop, p: Protector)
    requires Good(r, m, p) && h in r.hops
    ensures h.sequence == 1
  {
    var i :| 0 <= i < |r.hops| && r.hops[i] == h;
    assert GetHop(r.hops, h.batonId, h.sequence) == Some(h);
    assert HopLinked(h, m, p);
  }

  lemma NothingNextIsFinal(m: MissionStore, r: Relay, mission: Mission, viewer: Option<string>, authorized: bool, at: int)
    requires !HasUnprojectedFinal(Gathered(m, r, mission, viewer, authorized, at))
    ensures forall h | h in RouteOf(r.hops, mission.id) :: h.status.FINAL? ==> h.sequence != mission.currentSequence + 1
  {
  }

  lemma NothingFinal(x: Sys, id: string, viewer: Option<string>, authorized: bool, at: int, p: Protector)
    requires SysInv(x, p) && id in x.coord.missions.missions && x.coord.missions.missions[id].status.ACTIVE?
    requires !HasUnprojectedFinal(Gathered(x.coord.missions, x.coord.store.relay, x.coord.missions.missions[id], viewer, authorized, at))
    ensures !IsFinal(x.coord.store.relay.hops, id, 1)
    ensures LatestConfirmed(RouteOf(x.coord.store.relay.hops, id)).None?
  {
    LiveIsGood(x, p);
    ActiveHasNothingFinal(x.coord.missions, x.coord.store.relay, id, viewer, authorized, at, p);
    LatestIsConfirmed(RouteOf(x.coord.store.relay.hops, id));
  }

  /** A signed, correctly bound request to pay the mission directly. */
  predicate IsDirectRequest(q: AuthorizeRequest, id: string, holder: string) {
    q.missionId == id && q.invitationId == None && q.auth == WalletAction(AUTHORIZE_PASS, holder, Some(id), None, Some(1))
  }

  /** A signed, correctly bound request to pay along invitation v. */
  predicate IsIntroducedRequest(q: AuthorizeRequest, id: string, holder: string, v: Invitation) {
    q.missionId == id && q.invitationId == Some(v.id) && q.auth == WalletAction(AUTHORIZE_PASS, holder, Some(id), Some(v.id), Some(1))
  }

  /** Recorded hashes are never empty. */
  predicate HashIsReal(r: Relay, id: string) {
    GetHop(r.hops, id, 1).Some? ==> GetHop(r.hops, id, 1).value.txHash != Some("")
  }

  /** What the mission and the relay look like whenever a payment is offered to the holder. */
  ghost predicate IsPayable(m: MissionStore, r: Relay, id: string, at: int, p: Protector) {
    && id in m.missions && MissionSafety.MissionOk(id, m.missions[id], p) && m.missions[id].status.ACTIVE?
    && MissionSafety.IsBound(m.missions[id]) && !IsFinal(r.hops, id, 1)
    && (id in r.intents ==> IntentLinked(id, r.intents[id], m, p) && IsStale(r.intents[id], at))
    && (id in r.holders ==> r.holders[id] == m.missions[id].creator)
    && !HasRecordedBroadcast(r, id) && HashIsReal(r, id)
  }

  /** From there the relay accepts a checked request exactly when an expired intent has the same invitation. */
  lemma CheckedPassIsAuthorized(m: MissionStore, s: Store, q: AuthorizeRequest, nonce: string, created: int, c: Crypto)
    requires IsPayable(m, s.relay, q.missionId, q.now, c.protector) && PassChecked(m, s.relay, q).Ok?
    ensures Authorized(m, s, q, nonce, created, c.sha, c.protector, true).1.Ok?
       <==> (q.missionId in s.relay.intents ==> s.relay.intents[q.missionId].invitationId == PassChecked(m, s.relay, q).value)
  {
    var mission, invitationId := m.missions[q.missionId], PassChecked(m, s.relay, q).value;
    var request := RequestFor(q, MissionSafety.Target(mission, c.protector).value, invitationId);
    var t := if mission.id in s.relay.intents then CancelledPass(s, mission.id).0 else s;
    assert mission.id in s.relay.intents ==> CancelledPass(s, mission.id).1.Ok?;
    CommitmentIsGiven(t.relay, request, nonce, created, c.sha);
    assert Created(t, request, nonce, created, c.sha).1.Ok?;
  }

  lemma CommitmentIsGiven(r: Relay, q: PassRequest, nonce: string, at: int, sha: HopCommitment.Digest)
    requires q.requireOpaqueTag
    ensures IsGiven(NewIntent(r, q, nonce, at, sha).recipientData)
  {
  }

  predicate IsPaymentOffer(offer: Result<Option<PrimaryAction>>) {
    offer == Ok(Some(SEND_1_NIM)) || offer == Ok(Some(PASS_1_NIM))
  }

  /** What offering a payment tells about the mission and its relay state. */
  lemma OfferFacts(m: MissionStore, r: Relay, id: string, viewer: Option<string>, authorized: bool, at: int, p: Protector)
    requires IsPaymentOffer(OfferedAction(m, r, id, viewer, authorized, at, p))
    ensures id in m.missions && m.missions[id].status.ACTIVE? && viewer == Some(m.missions[id].currentHolder)
    ensures MissionSafety.IsBound(m.missions[id])
    ensures !HasUnprojectedFinal(Gathered(m, r, m.missions[id], viewer, authorized, at))
    ensures m.missions[id].id in r.intents ==> IsStale(r.intents[m.missions[id].id], at) && !HasRecordedBroadcast(r, m.missions[id].id)
  {
  }

  lemma PayableWhen(m: MissionStore, r: Relay, id: string, at: int, p: Protector)
    requires MissionSafety.Inv(m, p) && Good(r, m, p) && !IsFinal(r.hops, id, 1)
    requires id in m.missions && m.missions[id].status.ACTIVE? && MissionSafety.IsBound(m.missions[id])
    requires id in r.intents ==> IsStale(r.intents[id], at) && !HasRecordedBroadcast(r, id)
    ensures IsPayable(m, r, id, at, p)
  {
    if id in r.intents { assert IntentLinked(id, r.intents[id], m, p); }
    if id in r.holders { assert HolderLinked(id, r, m); }
    if GetHop(r.hops, id, 1).Some? { assert HopLinked(GetHop(r.hops, id, 1).value, m, p); }
  }

  lemma OfferedIsPayable(x: Sys, id: string, viewer: Option<string>, authorized: bool, at: int, p: Protector)
    requires SysInv(x, p)
    requires IsPaymentOffer(OfferedAction(x.coord.missions, x.coord.store.relay, id, viewer, authorized, at, p))
    ensures IsPayable(x.coord.missions, x.coord.store.relay, id, at, p)
    ensures viewer == Some(x.coord.missions.missions[id].currentHolder)
    ensures LatestConfirmed(RouteOf(x.coord.store.relay.hops, id)).None?
  {
    var m, r := x.coord.missions, x.coord.store.relay;
    OfferFacts(m, r, id, viewer, authorized, at, p);
    LiveIsGood(x, p);
    NothingFinal(x, id, viewer, authorized, at, p);
    assert MissionSafety.MissionOk(id, m.missions[id], p);
    PayableWhen(m, r, id, at, p);
  }

  /** SEND_1_NIM also means that no invitation was found, so there is none. */
  lemma OfferedSendHasNoInvitation(m: MissionStore, r: Relay, id: string, viewer: Option<string>, authorized: bool, at: int, p: Protector)
    requires OfferedAction(m, r, id, viewer, authorized, at, p) == Ok(Some(SEND_1_NIM)) && LatestConfirmed(RouteOf(r.hops, id)).None?
    requires MissionSafety.Inv(m, p)
    ensures forall i | 0 <= i < |m.invitations| :: m.invitations[i].missionId != id
  {
    OfferFacts(m, r, id, viewer, authorized, at, p);
    assert MissionSafety.MissionOk(id, m.missions[id], p);
    assert InvitationForSequence(m, id, 1).None?;
  }

  lemma DirectIsAuthorized(m: MissionStore, s: Store, id: string, q: AuthorizeRequest, nonce: string, created: int, c: Crypto)
    requires MissionSafety.Inv(m, c.protector) && IsPayable(m, s.relay, id, q.now, c.protector)
    requires forall i | 0 <= i < |m.invitations| :: m.invitations[i].missionId != id
    requires IsDirectRequest(q, id, m.missions[id].currentHolder)
    ensures Authorized(m, s, q, nonce, created, c.sha, c.protector, true).1.Ok?
  {
    BoundMeansClaimed(m, id, c.protector);
    assert PassChecked(m, s.relay, q) == Ok(None);
    CheckedPassIsAuthorized(m, s, q, nonce, created, c);
  }

  /**
   * Whenever the view offers SEND_1_NIM, the viewer holds the mission, no live intent, recorded broadcast or FINAL hop
   * exists for it, and a direct request arriving at that instant is authorized, whenever its intent is then dated.
   */
  lemma OfferedSendIsAccepted(x: Sys, id: string, viewer: Option<string>, authorized: bool, at: int, q: AuthorizeRequest, nonce: string,
                              created: int, c: Crypto)
    requires SysInv(x, c.protector)
    requires OfferedAction(x.coord.missions, x.coord.store.relay, id, viewer, authorized, at, c.protector) == Ok(Some(SEND_1_NIM))
    ensures viewer == Some(x.coord.missions.missions[id].currentHolder) && !IsFinal(x.coord.store.relay.hops, id, 1)
    ensures !HasRecordedBroadcast(x.coord.store.relay, id)
            && (id in x.coord.store.relay.intents ==> IsStale(x.coord.store.relay.intents[id], at))
    ensures IsDirectRequest(q, id, viewer.value) && q.now == at ==>
              Authorized(x.coord.missions, x.coord.store, q, nonce, created, c.sha, c.protector, true).1.Ok?
  {
    OfferedIsPayable(x, id, viewer, authorized, at, c.protector);
    OfferedSendHasNoInvitation(x.coord.missions, x.coord.store.relay, id, viewer, authorized, at, c.protector);
    if IsDirectRequest(q, id, viewer.value) && q.now == at {
      DirectIsAuthorized(x.coord.missions, x.coord.store, id, q, nonce, created, c);
    }
  }

  lemma OfferedPassIsOpen(m: MissionStore, r: Relay, id: string, viewer: Option<string>, authorized: bool, at: int, p: Protector, v: Invitation)
    requires OfferedAction(m, r, id, viewer, authorized, at, p) == Ok(Some(PASS_1_NIM)) && MissionSafety.Inv(m, p)
    requires OpenInvitation(m, id) == Some(v)
    ensures v.status.ACCEPTED? && v.missionId == id && v in m.invitations
  {
    OfferFacts(m, r, id, viewer, authorized, at, p);
    assert MissionSafety.MissionOk(id, m.missions[id], p);
  }

  lemma IntroducedIsAuthorizedExactlyWhen(m: MissionStore, s: Store, id: string, q: AuthorizeRequest, nonce: string, created: int, c: Crypto, i: nat)
    requires MissionSafety.Inv(m, c.protector) && IsPayable(m, s.relay, id, q.now, c.protector)
    requires forall wallet :: !InFinalRoute(s.relay, id, wallet)
    requires i < |m.invitations| && m.invitations[i].status.ACCEPTED? && m.invitations[i].missionId == id
    requires IsIntroducedRequest(q, id, m.missions[id].currentHolder, m.invitations[i])
    ensures m.invitations[i].passDeadlineAt.Some?
    ensures Authorized(m, s, q, nonce, created, c.sha, c.protector, true).1.Ok?
       <==> q.now < m.invitations[i].passDeadlineAt.value
            && (id in s.relay.intents ==> s.relay.intents[id].invitationId == Some(m.invitations[i].id))
  {
    InvitationsAreFound(m, i, c.protector);
    var v := m.invitations[i];
    assert PassChecked(m, s.relay, q) == if q.now >= v.passDeadlineAt.value then Err(PASS_DEADLINE_EXPIRED) else Ok(Some(v.id));
    if q.now < v.passDeadlineAt.value { CheckedPassIsAuthorized(m, s, q, nonce, created, c); }
  }

  /**
   * PASS_1_NIM is offered without looking at the clock or at the expired intent: authorizing it succeeds exactly while
   * the invitation's pass deadline has not been reached and an expired intent of the mission carries the same invitation.
   */
  lemma OfferedPassIsAcceptedExactlyWhen(x: Sys, id: string, viewer: Option<string>, authorized: bool, at: int, q: AuthorizeRequest,
                                         nonce: string, created: int, c: Crypto, v: Invitation)
    requires SysInv(x, c.protector) && OpenInvitation(x.coord.missions, id) == Some(v)
    requires OfferedAction(x.coord.missions, x.coord.store.relay, id, viewer, authorized, at, c.protector) == Ok(Some(PASS_1_NIM))
    requires viewer.Some? && IsIntroducedRequest(q, id, viewer.value, v) && q.now == at
    ensures v.passDeadlineAt.Some?
    ensures Authorized(x.coord.missions, x.coord.store, q, nonce, created, c.sha, c.protector, true).1.Ok?
       <==> at < v.passDeadlineAt.value
            && (id in x.coord.store.relay.intents ==> x.coord.store.relay.intents[id].invitationId == Some(v.id))
  {
    var m := x.coord.missions;
    OfferedIsPayable(x, id, viewer, authorized, at, c.protector);
    OfferedPassIsOpen(m, x.coord.store.relay, id, viewer, authorized, at, c.protector, v);
    var i :| 0 <= i < |m.invitations| && m.invitations[i] == v;
    NobodyOnRoute(x, id, c.protector);
    IntroducedIsAuthorizedExactlyWhen(m, x.coord.store, id, q, nonce, created, c, i);
  }

  lemma InvitationsAreFound(m: MissionStore, i: nat, p: Protector)
    requires MissionSafety.Inv(m, p) && i < |m.invitations|
    ensures FindInvitation(m.invitations, m.invitations[i].id) == Some(m.invitations[i])
  {
    var j := InvitationIndex(m.invitations, m.invitations[i].id);
    assert j <= i;
  }

  lemma NobodyOnRoute(x: Sys, id: string, p: Protector)
    requires SysInv(x, p) && !IsFinal(x.coord.store.relay.hops, id, 1)
    ensures forall wallet :: !InFinalRoute(x.coord.store.relay, id, wallet)
  {
    LiveIsGood(x, p);
    var hops := x.coord.store.relay.hops;
    forall i | 0 <= i < |hops| && hops[i].batonId == id ensures !hops[i].status.FINAL? {
      assert GetHop(hops, id, hops[i].sequence) == Some(hops[i]);
      assert HopLinked(hops[i], x.coord.missions, p);
    }
  }

  // ---------------------------------------------------------------- what the holder is offered, exactly

  /** The invitation the holder is shown: the first open one, else the first of all. */
  predicate IsShown(m: MissionStore, id: string, i: nat) {
    && i < |m.invitations| && m.invitations[i].missionId == id
    && (if IsOpen(m.invitations[i]) then forall j | 0 <= j < i && m.invitations[j].missionId == id :: !IsOpen(m.invitations[j])
        else (forall j | 0 <= j < i :: m.invitations[j].missionId != id)
             && forall j | 0 <= j < |m.invitations| && m.invitations[j].missionId == id :: !IsOpen(m.invitations[j]))
  }

  predicate HasNoInvitation(m: MissionStore, id: string) {
    forall i | 0 <= i < |m.invitations| :: m.invitations[i].missionId != id
  }

  /** No intent, or one whose window is over and that has no hash. */
  predicate IsFreeToPay(r: Relay, id: string, at: int) {
    id in r.intents ==>
      && at - r.intents[id].createdAt > Policy.INTENT_VALIDITY_WINDOW_MS
      && var hop := GetHop(r.hops, id, r.intents[id].sequence); hop.None? || hop.value.txHash.None? || hop.value.txHash.value == ""
  }

  lemma {:induction false} FirstIsFirst(s: seq<Invitation>, wanted: Invitation -> bool, i: nat)
    requires i < |s| && wanted(s[i]) && forall j | 0 <= j < i :: !wanted(s[j])
    ensures FirstInvitation(s, wanted) == Some(s[i])
  {
    if i > 0 { FirstIsFirst(s[1..], wanted, i - 1); }
  }

  lemma ShownIsShown(m: MissionStore, mission: Mission, route: seq<Hop>, i: nat, p: Protector)
    requires MissionSafety.Inv(m, p) && mission.currentSequence == 0 && LatestConfirmed(route).None? && IsShown(m, mission.id, i)
    ensures ShownInvitation(m, mission, route, Some(mission.currentHolder)) == Some(m.invitations[i])
  {
    var id := mission.id;
    if IsOpen(m.invitations[i]) {
      FirstIsFirst(m.invitations, (v: Invitation) => v.missionId == id && IsOpen(v), i);
    } else {
      assert OpenInvitation(m, id).None?;
      FirstIsFirst(m.invitations, (v: Invitation) => v.missionId == id && v.sequence == mission.currentSequence + 1, i);
    }
  }

  lemma NothingIsShown(m: MissionStore, mission: Mission, route: seq<Hop>)
    requires LatestConfirmed(route).None? && HasNoInvitation(m, mission.id)
    ensures ShownInvitation(m, mission, route, Some(mission.currentHolder)) == None
  {
  }

  /** For an ACTIVE mission an unprojected FINAL on the route is a FINAL first hop. */
  lemma UnprojectedExactly(m: MissionStore, r: Relay, id: string, viewer: Option<string>, authorized: bool, at: int, p: Protector)
    requires MissionSafety.Inv(m, p) && Good(r, m, p) && id in m.missions && m.missions[id].status.ACTIVE?
    ensures HasUnprojectedFinal(Gathered(m, r, m.missions[id], viewer, authorized, at)) <==> IsFinal(r.hops, id, 1)
    ensures !IsFinal(r.hops, id, 1) ==> LatestConfirmed(RouteOf(r.hops, id)).None?
  {
    var v := Gathered(m, r, m.missions[id], viewer, authorized, at);
    assert MissionSafety.MissionOk(id, m.missions[id], p);
    if IsFinal(r.hops, id, 1) {
      FinalIsOnRoute(v, r, id);
    } else {
      if HasUnprojectedFinal(v) { OnRouteIsFinal(v, r, id); }
      ActiveHasNothingFinal(m, r, id, viewer, authorized, at, p);
      LatestIsConfirmed(RouteOf(r.hops, id));
    }
  }

  lemma OnRouteIsFinal(v: ViewInput, r: Relay, id: string)
    requires v.route == RouteOf(r.hops, id) && SlotsUnique(r.hops) && HasUnprojectedFinal(v) && v.mission.currentSequence == 0
    ensures IsFinal(r.hops, id, 1)
  {
    RouteIsTheHops(r.hops, id);
    var i :| 0 <= i < |v.route| && v.route[i].status.FINAL? && v.route[i].sequence == v.mission.currentSequence + 1;
    assert v.route[i] in v.route;
    var j :| 0 <= j < |r.hops| && r.hops[j] == v.route[i];
    assert GetHop(r.hops, r.hops[j].batonId, r.hops[j].sequence) == Some(r.hops[j]);
  }

  lemma FinalIsOnRoute(v: ViewInput, r: Relay, id: string)
    requires v.route == RouteOf(r.hops, id) && IsFinal(r.hops, id, 1) && v.mission.currentSequence == 0
    ensures HasUnprojectedFinal(v)
  {
    RouteIsTheHops(r.hops, id);
    SlotHolds(r.hops, id, 1);
    var i :| 0 <= i < |v.route| && v.route[i] == GetHop(r.hops, id, 1).value;
    assert v.route[i].status.FINAL? && v.route[i].sequence == v.mission.currentSequence + 1;
  }

  /** The offer made to the holder of an ACTIVE mission, by what the stores hold. */
  predicate IsHoldersOffer(m: MissionStore, r: Relay, id: string, at: int, offer: Option<PrimaryAction>)
    requires id in m.missions
  {
    if IsFinal(r.hops, id, 1) then offer == Some(WAIT)
    else if at - m.missions[id].updatedAt > 24 * 60 * 60_000 then offer == Some(REROUTE)
    else if !MissionSafety.IsBound(m.missions[id]) then offer == Some(SHARE_CLAIM)
    else if HasNoInvitation(m, id) then offer == Some(if IsFreeToPay(r, id, at) then SEND_1_NIM else WAIT)
    else exists i :: 0 <= i < |m.invitations| && IsShown(m, id, i)
                     && offer == Some(if m.invitations[i].status.EXPIRED? then PrimaryAction.CREATE_INVITATION
                                      else if m.invitations[i].status.ACCEPTED? && IsFreeToPay(r, id, at) then PASS_1_NIM else WAIT)
  }

  lemma SomeIsShown(m: MissionStore, id: string) returns (i: nat)
    requires !HasNoInvitation(m, id)
    ensures IsShown(m, id, i)
  {
    if exists j: nat :: j < |m.invitations| && m.invitations[j].missionId == id && IsOpen(m.invitations[j]) {
      i := FirstWhere(m.invitations, (v: Invitation) => v.missionId == id && IsOpen(v));
    } else {
      i := FirstWhere(m.invitations, (v: Invitation) => v.missionId == id);
    }
  }

  lemma {:induction false} FirstWhere(s: seq<Invitation>, wanted: Invitation -> bool) returns (i: nat)
    requires exists j :: 0 <= j < |s| && wanted(s[j])
    ensures i < |s| && wanted(s[i]) && forall j | 0 <= j < i :: !wanted(s[j])
  {
    i := 0;
    if !wanted(s[0]) {
      var j :| 0 <= j < |s| && wanted(s[j]);
      assert s[1..][j - 1] == s[j];
      i := FirstWhere(s[1..], wanted);
      i := i + 1;
      assert forall k | 0 < k < i :: s[k] == s[1..][k - 1];
    }
  }

  /** What the view shows of the mission, once it is known what is shown of its invitations. */
  lemma HolderIsOffered(m: MissionStore, r: Relay, id: string, authorized: bool, at: int, p: Protector, shown: Option<Invitation>)
    requires id in m.missions && MissionSafety.MissionOk(id, m.missions[id], p) && m.missions[id].status.ACTIVE? && !IsFinal(r.hops, id, 1)
    requires !HasUnprojectedFinal(Gathered(m, r, m.missions[id], Some(m.missions[id].currentHolder), authorized, at))
    requires ShownInvitation(m, m.missions[id], RouteOf(r.hops, id), Some(m.missions[id].currentHolder)) == shown
    requires MissionSafety.IsBound(m.missions[id]) ==> !IsUnclaimed(LatestClaim(m.claims, id))
    requires shown.Some? ==> shown.value.sequence == 1
    ensures OfferedAction(m, r, id, Some(m.missions[id].currentHolder), authorized, at, p)
         == Ok(Some(if at - m.missions[id].updatedAt > 24 * 60 * 60_000 then REROUTE
                    else if !MissionSafety.IsBound(m.missions[id]) then SHARE_CLAIM
                    else if shown.None? then if IsFreeToPay(r, id, at) then SEND_1_NIM else WAIT
                    else if shown.value.status.EXPIRED? then PrimaryAction.CREATE_INVITATION
                    else if shown.value.status.ACCEPTED? && IsFreeToPay(r, id, at) then PASS_1_NIM else WAIT))
  {
    var v := Gathered(m, r, m.missions[id], Some(m.missions[id].currentHolder), authorized, at);
    assert MayReplaceIntent(v) <==> IsFreeToPay(r, id, at);
    assert RoleOf(v, p).CREATOR?;
  }

  /**
   * The holder of an ACTIVE mission is offered exactly this: wait for an unprojected FINAL hop, reroute a mission untouched
   * for a day, share the link while no destination is bound, pay directly where nobody was ever introduced, pay along an
   * accepted introduction, introduce again after an expired one, and wait otherwise, always while a live payment is open.
   */
  lemma HolderIsOfferedExactly(x: Sys, id: string, authorized: bool, at: int, p: Protector)
    requires SysInv(x, p) && id in x.coord.missions.missions && x.coord.missions.missions[id].status.ACTIVE?
    ensures var m, r := x.coord.missions, x.coord.store.relay;
            var offer := OfferedAction(m, r, id, Some(m.missions[id].currentHolder), authorized, at, p);
            offer.Ok? && IsHoldersOffer(m, r, id, at, offer.value)
  {
    var m, r := x.coord.missions, x.coord.store.relay;
    var mission, holder := m.missions[id], Some(m.missions[id].currentHolder);
    LiveIsGood(x, p);
    assert MissionSafety.MissionOk(id, mission, p);
    UnprojectedExactly(m, r, id, holder, authorized, at, p);
    if !IsFinal(r.hops, id, 1) { UnpaidHolderIsOffered(m, r, id, authorized, at, p); }
  }

  lemma UnpaidHolderIsOffered(m: MissionStore, r: Relay, id: string, authorized: bool, at: int, p: Protector)
    requires MissionSafety.Inv(m, p) && id in m.missions && m.missions[id].status.ACTIVE? && !IsFinal(r.hops, id, 1)
    requires !HasUnprojectedFinal(Gathered(m, r, m.missions[id], Some(m.missions[id].currentHolder), authorized, at))
    requires LatestConfirmed(RouteOf(r.hops, id)).None?
    ensures var offer := OfferedAction(m, r, id, Some(m.missions[id].currentHolder), authorized, at, p);
            offer.Ok? && IsHoldersOffer(m, r, id, at, offer.value)
  {
    var mission := m.missions[id];
    assert MissionSafety.MissionOk(id, mission, p);
    if MissionSafety.IsBound(mission) { BoundMeansClaimed(m, id, p); }
    if HasNoInvitation(m, id) {
      NothingIsShown(m, mission, RouteOf(r.hops, id));
      HolderIsOffered(m, r, id, authorized, at, p, None);
    } else {
      var i := SomeIsShown(m, id);
      ShownIsShown(m, mission, RouteOf(r.hops, id), i, p);
      HolderIsOffered(m, r, id, authorized, at, p, Some(m.invitations[i]));
    }
  }

  lemma ShownIsUnique(m: MissionStore, id: string, i: nat, j: nat)
    requires IsShown(m, id, i) && IsShown(m, id, j)
    ensures i == j
  {
  }

  /** A payment can be offered for this mission at this instant, were it not for its invitations. */
  predicate IsPayDay(m: MissionStore, r: Relay, id: string, viewer: Option<string>, at: int) {
    && id in m.missions && m.missions[id].status.ACTIVE? && viewer == Some(m.missions[id].currentHolder)
    && at - m.missions[id].updatedAt <= 24 * 60 * 60_000 && MissionSafety.IsBound(m.missions[id]) && !IsFinal(r.hops, id, 1)
    && IsFreeToPay(r, id, at)
  }

  /**
   * A viewer is offered to pay directly exactly as the holder of an ACTIVE, bound, unpaid mission touched within a day, with
   * no live intent and no invitation at all; and to pass it on exactly when the invitation shown is an accepted one.
   */
  lemma PaymentsAreOfferedExactlyWhen(x: Sys, id: string, viewer: Option<string>, authorized: bool, at: int, p: Protector)
    requires SysInv(x, p)
    ensures var m, r := x.coord.missions, x.coord.store.relay;
            var offer := OfferedAction(m, r, id, viewer, authorized, at, p);
            && (offer == Ok(Some(SEND_1_NIM)) <==> IsPayDay(m, r, id, viewer, at) && HasNoInvitation(m, id))
            && (offer == Ok(Some(PASS_1_NIM)) <==>
                  IsPayDay(m, r, id, viewer, at)
                  && exists i :: 0 <= i < |m.invitations| && IsShown(m, id, i) && m.invitations[i].status.ACCEPTED?)
  {
    var m, r := x.coord.missions, x.coord.store.relay;
    if IsPaymentOffer(OfferedAction(m, r, id, viewer, authorized, at, p)) { OfferFacts(m, r, id, viewer, authorized, at, p); }
    if id in m.missions && m.missions[id].status.ACTIVE? && viewer == Some(m.missions[id].currentHolder) {
      HolderIsOfferedExactly(x, id, authorized, at, p);
      OffersArePayDays(m, r, id, viewer, at, OfferedAction(m, r, id, viewer, authorized, at, p).value);
    }
  }

  lemma OffersArePayDays(m: MissionStore, r: Relay, id: string, viewer: Option<string>, at: int, offer: Option<PrimaryAction>)
    requires id in m.missions && m.missions[id].status.ACTIVE? && viewer == Some(m.missions[id].currentHolder) && IsHoldersOffer(m, r, id, at, offer)
    ensures offer == Some(SEND_1_NIM) <==> IsPayDay(m, r, id, viewer, at) && HasNoInvitation(m, id)
    ensures offer == Some(PASS_1_NIM) <==>
              IsPayDay(m, r, id, viewer, at) && exists i :: 0 <= i < |m.invitations| && IsShown(m, id, i) && m.invitations[i].status.ACCEPTED?
  {
    forall i: nat, j: nat | IsShown(m, id, i) && IsShown(m, id, j) ensures i == j { ShownIsUnique(m, id, i, j); }
  }

  // ---------------------------------------------------------------- what anybody else is offered

  /** Only the holder of an ACTIVE mission is ever offered to do something about it. */
  lemma OnlyTheHolderActs(m: MissionStore, r: Relay, id: string, viewer: Option<string>, authorized: bool, at: int, p: Protector, action: PrimaryAction)
    requires OfferedAction(m, r, id, viewer, authorized, at, p) == Ok(Some(action))
    requires action in {SHARE_CLAIM, PrimaryAction.CREATE_INVITATION, SEND_1_NIM, PASS_1_NIM}
    ensures id in m.missions && m.missions[id].status.ACTIVE? && viewer == Some(m.missions[id].currentHolder)
  {
  }

  /** The destination of the mission, and the wallet its first open invitation is for. */
  predicate IsDestination(m: MissionStore, id: string, wallet: string, p: Protector)
    requires id in m.missions
  {
    MissionSafety.Target(m.missions[id], p) == Some(wallet)
  }

  ghost predicate IsInvitee(m: MissionStore, id: string, wallet: string, status: InvitationStatus) {
    status in {INVITED, ACCEPTED}
    && exists i: nat :: IsShown(m, id, i) && m.invitations[i].candidate == Some(wallet) && m.invitations[i].status == status
  }

  lemma OpenIsShown(m: MissionStore, mission: Mission, route: seq<Hop>, viewer: Option<string>, i: nat)
    requires IsShown(m, mission.id, i) && IsOpen(m.invitations[i])
    ensures ShownInvitation(m, mission, route, viewer) == Some(m.invitations[i])
  {
    FirstIsFirst(m.invitations, (v: Invitation) => v.missionId == mission.id && IsOpen(v), i);
  }

  /**
   * While an ACTIVE mission is neither FINAL nor stalled, an anonymous viewer is offered nothing, the destination to look at
   * the route, and another invited wallet to wait once it has accepted.
   */
  lemma OthersAreOffered(x: Sys, id: string, viewer: Option<string>, authorized: bool, at: int, p: Protector)
    requires SysInv(x, p) && IsSound(p) && id in x.coord.missions.missions && x.coord.missions.missions[id].status.ACTIVE?
    requires viewer != Some(x.coord.missions.missions[id].currentHolder) && at - x.coord.missions.missions[id].updatedAt <= 24 * 60 * 60_000
    requires !IsFinal(x.coord.store.relay.hops, id, 1)
    ensures var m := x.coord.missions;
            var offer := OfferedAction(m, x.coord.store.relay, id, viewer, authorized, at, p);
            && (viewer.None? ==> offer == Ok(None))
            && (viewer.Some? && IsDestination(m, id, viewer.value, p) ==> offer == Ok(Some(PrimaryAction.VIEW_ROUTE)))
            && (viewer.Some? && !IsDestination(m, id, viewer.value, p) && IsInvitee(m, id, viewer.value, ACCEPTED) ==> offer == Ok(Some(WAIT)))
            && (viewer.Some? && !IsDestination(m, id, viewer.value, p) && IsInvitee(m, id, viewer.value, INVITED) ==> offer == Ok(None))
  {
    var m, r := x.coord.missions, x.coord.store.relay;
    LiveIsGood(x, p);
    assert MissionSafety.MissionOk(id, m.missions[id], p);
    UnprojectedExactly(m, r, id, viewer, authorized, at, p);
    OtherIsOffered(m, r, id, viewer, authorized, at, p);
  }

  lemma OtherIsOffered(m: MissionStore, r: Relay, id: string, viewer: Option<string>, authorized: bool, at: int, p: Protector)
    requires IsSound(p) && id in m.missions && MissionSafety.MissionOk(id, m.missions[id], p) && m.missions[id].status.ACTIVE?
    requires viewer != Some(m.missions[id].currentHolder) && at - m.missions[id].updatedAt <= 24 * 60 * 60_000
    requires !HasUnprojectedFinal(Gathered(m, r, m.missions[id], viewer, authorized, at))
    ensures var offer := OfferedAction(m, r, id, viewer, authorized, at, p);
            && (viewer.None? ==> offer == Ok(None))
            && (viewer.Some? && IsDestination(m, id, viewer.value, p) ==> offer == Ok(Some(PrimaryAction.VIEW_ROUTE)))
            && (viewer.Some? && !IsDestination(m, id, viewer.value, p) && IsInvitee(m, id, viewer.value, ACCEPTED) ==> offer == Ok(Some(WAIT)))
            && (viewer.Some? && !IsDestination(m, id, viewer.value, p) && IsInvitee(m, id, viewer.value, INVITED) ==> offer == Ok(None))
  {
    forall i: nat | IsShown(m, id, i) && IsOpen(m.invitations[i])
      ensures ShownInvitation(m, m.missions[id], RouteOf(r.hops, id), viewer) == Some(m.invitations[i])
    {
      OpenIsShown(m, m.missions[id], RouteOf(r.hops, id), viewer, i);
    }
  }

  // ---------------------------------------------------------------- who may start a new route

  lemma {:induction false} LatestExists(route: seq<Hop>)
    ensures LatestConfirmed(route).None? ==> forall h | h in route :: !IsConfirmed(h)
  {
    if |route| > 0 { LatestExists(route[1..]); }
  }

  /** The route of a delivered mission is its one FINAL hop. */
  lemma DeliveredRoute(r: Relay, m: MissionStore, id: string, p: Protector)
    requires Good(r, m, p) && IsFinal(r.hops, id, 1)
    ensures var h := GetHop(r.hops, id, 1).value;
            && h in RouteOf(r.hops, id) && (forall g | g in RouteOf(r.hops, id) :: g == h) && IsConfirmed(h)
            && LatestConfirmed(RouteOf(r.hops, id)) == Some(h)
  {
    var h := GetHop(r.hops, id, 1).value;
    RouteIsTheHops(r.hops, id);
    SlotHolds(r.hops, id, 1);
    assert IsComplete(h);
    forall g | g in RouteOf(r.hops, id) ensures g == h {
      OnlyTheFirstIsFinal(r, m, g, p);
      var i :| 0 <= i < |r.hops| && r.hops[i] == g;
      assert GetHop(r.hops, g.batonId, g.sequence) == Some(g);
    }
    LatestExists(RouteOf(r.hops, id));
    LatestIsConfirmed(RouteOf(r.hops, id));
  }

  /** The wallet whose accepted introduction the delivery went along. */
  predicate IsBridge(m: MissionStore, h: Hop, wallet: string) {
    IsGiven(h.invitationId) && FindInvitation(m.invitations, h.invitationId.value).Some?
    && FindInvitation(m.invitations, h.invitationId.value).value.candidate == Some(wallet)
  }

  /** The first open invitation of the mission, or without one the invitation behind the delivery, is open and for the wallet. */
  predicate IsStillInvited(m: MissionStore, id: string, h: Hop, wallet: string) {
    if exists i :: 0 <= i < |m.invitations| && m.invitations[i].missionId == id && IsOpen(m.invitations[i])
    then exists i :: 0 <= i < |m.invitations| && IsShown(m, id, i) && m.invitations[i].candidate == Some(wallet)
    else IsBridge(m, h, wallet) && IsOpen(FindInvitation(m.invitations, h.invitationId.value).value)
  }

  lemma InvitedExactly(m: MissionStore, mission: Mission, route: seq<Hop>, viewer: Option<string>, h: Hop)
    requires LatestConfirmed(route) == Some(h) && viewer.Some?
    ensures var shown := ShownInvitation(m, mission, route, viewer);
            && (IsStillInvited(m, mission.id, h, viewer.value) <==> shown.Some? && IsOpen(shown.value) && shown.value.candidate == viewer)
            && (shown.Some? && !IsOpen(shown.value) && shown.value.candidate == viewer ==> IsBridge(m, h, viewer.value))
  {
    var id := mission.id;
    if exists i: nat :: i < |m.invitations| && m.invitations[i].missionId == id && IsOpen(m.invitations[i]) {
      var i := FirstWhere(m.invitations, (v: Invitation) => v.missionId == id && IsOpen(v));
      assert IsShown(m, id, i);
      OpenIsShown(m, mission, route, viewer, i);
      forall j: nat | IsShown(m, id, j) ensures i == j { ShownIsUnique(m, id, i, j); }
    } else {
      assert OpenInvitation(m, id).None?;
    }
  }

  /**
   * A cancelled mission offers nothing. After the delivery a viewer is offered a new route exactly as the creator, as the
   * destination, or, not being invited any more, as the bridge of the delivery or any signed-in participant; anybody else may look.
   */
  lemma EndedMissionsOfferExactly(x: Sys, id: string, viewer: Option<string>, authorized: bool, at: int, p: Protector)
    requires SysInv(x, p) && IsSound(p) && id in x.coord.missions.missions && !x.coord.missions.missions[id].status.ACTIVE?
    ensures var m, hops := x.coord.missions, x.coord.store.relay.hops;
            var offer := OfferedAction(m, x.coord.store.relay, id, viewer, authorized, at, p);
            if m.missions[id].status.CANCELLED? then offer == Ok(None)
            else
              IsFinal(hops, id, 1)
              && offer == Ok(Some(if viewer.Some? && MayStartAnew(m, GetHop(hops, id, 1).value, id, viewer.value, authorized, p)
                                  then START_NEW_ROUTE else PrimaryAction.VIEW_ROUTE))
  {
    var m, r := x.coord.missions, x.coord.store.relay;
    if m.missions[id].status.ARRIVED? {
      LiveIsGood(x, p);
      assert MissionSafety.MissionOk(id, m.missions[id], p) && IsFinal(r.hops, id, 1);
      DeliveredRoute(r, m, id, p);
      assert HopLinked(GetHop(r.hops, id, 1).value, m, p);
      ArrivedOffer(m, r, id, viewer, authorized, at, p, GetHop(r.hops, id, 1).value);
    }
  }

  predicate MayStartAnew(m: MissionStore, h: Hop, id: string, wallet: string, authorized: bool, p: Protector)
    requires id in m.missions
  {
    || wallet == m.missions[id].creator || IsDestination(m, id, wallet, p)
    || (!IsStillInvited(m, id, h, wallet) && (IsBridge(m, h, wallet) || authorized))
  }

  lemma BridgeIsTheCandidate(m: MissionStore, h: Hop, shown: Option<Invitation>, p: Protector)
    requires MissionSafety.Inv(m, p) && IsConfirmed(h) && (shown.Some? ==> shown.value in m.invitations)
    ensures forall wallet :: BridgeWallet(m, h, shown) == Some(wallet) <==> IsBridge(m, h, wallet)
  {
    if shown.Some? {
      var k :| 0 <= k < |m.invitations| && m.invitations[k] == shown.value;
      InvitationsAreFound(m, k, p);
    }
  }

  lemma ShownIsARecord(m: MissionStore, mission: Mission, route: seq<Hop>, viewer: Option<string>)
    ensures ShownInvitation(m, mission, route, viewer).Some? ==> ShownInvitation(m, mission, route, viewer).value in m.invitations
  {
  }

  lemma BridgesExactly(m: MissionStore, r: Relay, mission: Mission, viewer: Option<string>, authorized: bool, at: int, h: Hop, wallet: string, p: Protector)
    requires MissionSafety.Inv(m, p)
    requires var route := RouteOf(r.hops, mission.id); h in route && (forall g | g in route :: g == h) && IsConfirmed(h)
    ensures wallet in Gathered(m, r, mission, viewer, authorized, at).bridges <==> IsBridge(m, h, wallet)
  {
    var route := RouteOf(r.hops, mission.id);
    var shown := ShownInvitation(m, mission, route, viewer);
    ShownIsARecord(m, mission, route, viewer);
    BridgeIsTheCandidate(m, h, shown, p);
    forall i | 0 <= i < |route| ensures route[i] == h { assert route[i] in route; }
    var i :| 0 <= i < |route| && route[i] == h;
    if IsBridge(m, h, wallet) { assert BridgeWallet(m, route[i], shown) == Some(wallet); }
  }

  lemma ArrivedOffer(m: MissionStore, r: Relay, id: string, viewer: Option<string>, authorized: bool, at: int, p: Protector, h: Hop)
    requires IsSound(p) && MissionSafety.Inv(m, p) && id in m.missions && m.missions[id].status.ARRIVED?
    requires var route := RouteOf(r.hops, id); h in route && (forall g | g in route :: g == h) && IsConfirmed(h) && LatestConfirmed(route) == Some(h)
    requires h.currentHolder == m.missions[id].creator && MissionSafety.Target(m.missions[id], p) == Some(h.recipient)
    ensures OfferedAction(m, r, id, viewer, authorized, at, p)
         == Ok(Some(if viewer.Some? && MayStartAnew(m, h, id, viewer.value, authorized, p) then START_NEW_ROUTE else PrimaryAction.VIEW_ROUTE))
  {
    var mission := m.missions[id];
    var v := Gathered(m, r, mission, viewer, authorized, at);
    assert MissionSafety.MissionOk(id, mission, p);
    assert OfferedAction(m, r, id, viewer, authorized, at, p) == Ok(PrimaryActionOf(v, p));
    if viewer.Some? {
      BridgesExactly(m, r, mission, viewer, authorized, at, h, viewer.value, p);
      OnRouteMeansAnEnd(v.route, h, viewer.value);
      InvitedExactly(m, mission, v.route, viewer, h);
    }
  }

  lemma OnRouteMeansAnEnd(route: seq<Hop>, h: Hop, wallet: string)
    requires h in route && forall g | g in route :: g == h
    ensures IsOnRoute(route, wallet) <==> wallet == h.currentHolder || wallet == h.recipient
  {
    forall i | 0 <= i < |route| ensures route[i] == h { assert route[i] in route; }
    var i :| 0 <= i < |route| && route[i] == h;
  }
}
