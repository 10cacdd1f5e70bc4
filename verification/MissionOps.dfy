/** Every way the mission surface changes the mission store, with the relay's answers filled in. */
module MissionOps {
  import opened Domain
  import opened PaymentRails
  import opened Relay
  import opened RelayService
  import opened Missions
  import opened MissionService
  import opened MissionSafety
  import opened Coordinator

  datatype MissionOp =
    | OpenMission(id: string, auth: WalletAction, target: Option<KnownTarget>)
    | OpenClaim(missionId: string, creator: string, claimId: string, token: string)
    | ReissueClaim(missionId: string, auth: WalletAction, claimId: string, token: string)
    | ClaimDestination(token: string, auth: WalletAction, iv: string)
    | CancelMission(id: string, auth: WalletAction)
    | Invite(missionId: string, auth: WalletAction, candidate: Option<string>, id: string, token: string)
    | InviteAgain(missionId: string, id: string, auth: WalletAction, candidate: Option<string>, token: string)
    | Accept(token: string, auth: WalletAction)
    | Decline(token: string)
    | Withdraw(id: string, auth: WalletAction)
    | ExpireInvitations
    | ExpireClaims

  function RouteHas(r: Relay, missionId: Option<string>, wallet: Option<string>): bool {
    missionId.Some? && wallet.Some? && InFinalRoute(r, missionId.value, wallet.value)
  }

  function MissionOfInvitation(i: Option<Invitation>): Option<string> {
    if i.Some? then Some(i.value.missionId) else None
  }

  function MissionOfClaim(c: Option<Claim>): Option<string> {
    if c.Some? then Some(c.value.missionId) else None
  }

  function ActivePassOf(r: Relay, missionId: string): ActivePass {
    if missionId in r.intents then PassTo(r.intents[missionId].recipient) else NoPass
  }

  /** The guards ask the live relay: a recorded broadcast, a wallet already on the route, the active recipient. */
  function ApplyOp(m: MissionStore, r: Relay, op: MissionOp, at: int, p: Protector): MissionStore {
    match op
    case OpenMission(id, auth, target) => MissionOpenedBy(m, id, auth, target, at, p).0
    case OpenClaim(id, creator, claimId, token) => ClaimOpened(m, id, creator, claimId, token, at).0
    case ReissueClaim(id, auth, claimId, token) => ClaimReissuedBy(m, id, auth, claimId, token, at).0
    case ClaimDestination(token, auth, iv) =>
      DestinationClaimedBy(m, token, auth, iv, RouteHas(r, MissionOfClaim(ClaimByToken(m.claims, token)), Some(auth.wallet)), at, p).0
    case CancelMission(id, auth) => MissionCancelledBy(m, id, auth, HasRecordedBroadcast(r, id), at).0
    case Invite(missionId, auth, candidate, id, token) =>
      InvitationOpenedBy(m, missionId, auth, candidate, id, token, RouteHas(r, Some(missionId), candidate), at).0
    case InviteAgain(missionId, id, auth, candidate, token) =>
      InvitationReopenedBy(m, missionId, id, auth, candidate, token, ActivePassOf(r, missionId), RouteHas(r, Some(missionId), candidate), at).0
    case Accept(token, auth) =>
      InvitationAcceptedWith(m, token, auth, RouteHas(r, MissionOfInvitation(InvitationByToken(m, token)), Some(auth.wallet)), at).0
    case Decline(token) => InvitationDeclined(m, token, at).0
    case Withdraw(id, auth) =>
      var missionId := MissionOfInvitation(FindInvitation(m.invitations, id));
      InvitationWithdrawnBy(m, id, auth, missionId.Some? && HasRecordedBroadcast(r, missionId.value), at).0
    case ExpireInvitations => InvitationsExpired(m, at)
    case ExpireClaims => ClaimsExpired(m, at)
  }

  /** New record ids are fresh and wallets are user-friendly addresses. */
  predicate IsLegal(m: MissionStore, op: MissionOp) {
    match op
    case OpenMission(_, auth, _) => IsNimiqAddress(auth.wallet)
    case OpenClaim(_, _, claimId, _) => forall i | 0 <= i < |m.claims| :: m.claims[i].id != claimId
    case ReissueClaim(_, _, claimId, _) => forall i | 0 <= i < |m.claims| :: m.claims[i].id != claimId
    case Invite(_, _, _, id, _) => id != "" && forall i | 0 <= i < |m.invitations| :: m.invitations[i].id != id
    case ClaimDestination(_, auth, _) => IsNimiqAddress(auth.wallet)
    case Accept(_, auth) => IsNimiqAddress(auth.wallet)
    case _ => true
  }

  predicate IsInvitationOp(op: MissionOp) {
    op.Invite? || op.InviteAgain? || op.Accept? || op.Decline? || op.Withdraw? || op.ExpireInvitations?
  }

  lemma TokenOpKeeps(m: MissionStore, r: Relay, op: MissionOp, at: int, p: Protector)
    requires Inv(m, p) && IsLegal(m, op) && (op.InviteAgain? || op.Accept?)
    ensures Keeps(m, ApplyOp(m, r, op, at, p), p)
  {
    NothingKeeps(m, p);
    match op
    case InviteAgain(missionId, id, auth, candidate, token) =>
      InvitationReopenedKeeps(m, missionId, id, auth.wallet, candidate, token, ActivePassOf(r, missionId),
                              RouteHas(r, Some(missionId), candidate), at, p);
    case Accept(token, auth) =>
      AcceptedByKeeps(m, token, auth.wallet, RouteHas(r, MissionOfInvitation(InvitationByToken(m, token)), Some(auth.wallet)), at, p);
  }

  lemma InvitationOpKeeps(m: MissionStore, r: Relay, op: MissionOp, at: int, p: Protector)
    requires Inv(m, p) && IsLegal(m, op) && IsInvitationOp(op)
    ensures Keeps(m, ApplyOp(m, r, op, at, p), p)
  {
    NothingKeeps(m, p);
    match op
    case InviteAgain(_, _, _, _, _) => TokenOpKeeps(m, r, op, at, p);
    case Accept(_, _) => TokenOpKeeps(m, r, op, at, p);
    case Invite(missionId, auth, candidate, id, token) =>
      InvitationOpenedKeeps(m, missionId, auth.wallet, candidate, id, token, RouteHas(r, Some(missionId), candidate), at, p);
    case Decline(token) => DeclinedKeeps(m, token, at, p);
    case Withdraw(id, auth) =>
      var missionId := MissionOfInvitation(FindInvitation(m.invitations, id));
      WithdrawnKeeps(m, id, auth.wallet, missionId.Some? && HasRecordedBroadcast(r, missionId.value), at, p);
    case ExpireInvitations => InvitationsExpiredKeeps(m, at, p);
  }

  /** Every operation keeps the mission invariant and never moves a mission to ARRIVED. */
  lemma OpKeeps(m: MissionStore, r: Relay, op: MissionOp, at: int, p: Protector)
    requires Inv(m, p) && IsSound(p) && IsLegal(m, op)
    ensures Keeps(m, ApplyOp(m, r, op, at, p), p)
  {
    if IsInvitationOp(op) {
      InvitationOpKeeps(m, r, op, at, p);
    } else {
      MissionOrClaimOpKeeps(m, r, op, at, p);
    }
  }

  lemma MissionOrClaimOpKeeps(m: MissionStore, r: Relay, op: MissionOp, at: int, p: Protector)
    requires Inv(m, p) && IsSound(p) && IsLegal(m, op) && !IsInvitationOp(op)
    ensures Keeps(m, ApplyOp(m, r, op, at, p), p)
  {
    NothingKeeps(m, p);
    match op
    case OpenMission(id, auth, target) => CreatedKeeps(m, id, auth.wallet, target, at, p);
    case OpenClaim(id, creator, claimId, token) => ClaimOpenedKeeps(m, id, creator, claimId, token, at, p);
    case ReissueClaim(id, auth, claimId, token) => ClaimReissuedKeeps(m, id, auth.wallet, claimId, token, at, p);
    case ClaimDestination(token, auth, iv) =>
      var route := RouteHas(r, MissionOfClaim(ClaimByToken(m.claims, token)), Some(auth.wallet));
      DestinationClaimedKeeps(m, token, auth.wallet, iv, route, at, p);
    case CancelMission(id, auth) => CancelledByOwnerKeeps(m, id, auth.wallet, HasRecordedBroadcast(r, id), at, p);
    case ExpireClaims => ClaimsExpiredKeeps(m, at, p);
  }
}
