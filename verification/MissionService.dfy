/**
 * The service guards in front of the repository. Wallet actions arrive with a verified signature; what it is bound to is
 * checked here. The functions take the answers of the two guards the coordinator sets as booleans.
 */
module MissionService {
  import opened Domain
  import opened Relay
  import opened RelayService
  import opened Missions
  import opened MissionRepository

  const INVITATION_TTL_MS := 12 * 60 * 60 * 1000
  const DESTINATION_CLAIM_TTL_MS := 24 * 60 * 60 * 1000
  const ACCEPTED_PASS_DEADLINE_MS := 60 * 60 * 1000
  const MISSION_STALL_THRESHOLD_MS := 24 * 60 * 60 * 1000

  /** Authenticated encryption of a wallet under a random nonce, and the keyed hash used to compare wallets. */
  datatype Protector = Protector(
    encrypt: (string, string) -> string,
    decrypt: string -> Option<string>,
    hmac: string -> string)

  ghost predicate IsSound(p: Protector) {
    && (forall w, iv :: p.decrypt(p.encrypt(w, iv)) == Some(w))
    && (forall v, w | p.hmac(v) == p.hmac(w) :: v == w)
  }

  /** The assumption can be met. */
  lemma SoundProtectorExists() returns (p: Protector)
    ensures IsSound(p)
  {
    p := Protector((w: string, iv: string) => w, (c: string) => Some(c), (w: string) => w);
  }

  /** The signature is for this action and, where they are given, for this mission, invitation and sequence. */
  function Asserted(auth: WalletAction, action: MissionAction, missionId: Option<string>, invitationId: Option<string>, sequence: Option<int>)
    : Result<()>
  {
    if auth.action != action then Err(WRONG_AUTH_ACTION)
    else if missionId.Some? && auth.missionId != missionId then Err(AUTH_MISSION_MISMATCH)
    else if invitationId.Some? && auth.invitationId != invitationId then Err(AUTH_INVITATION_MISMATCH)
    else if sequence.Some? && auth.sequence != sequence then Err(AUTH_SEQUENCE_MISMATCH)
    else Ok(())
  }

  /** An operation behind its signature check. */
  function Signed<T>(s: MissionStore, asserted: Result<()>, operation: (MissionStore, Result<T>)): (MissionStore, Result<T>) {
    if asserted.Err? then (s, Err(asserted.reason)) else operation
  }

  /** The recipient of the open intent, as the caller knows it: there is no intent, or one whose recipient is missing. */
  datatype ActivePass = NoPass | UnknownPass | PassTo(wallet: string)

  /** A destination named at creation: the wallet, whether consent was confirmed, and the encryption nonce. */
  datatype KnownTarget = KnownTarget(wallet: string, consent: bool, iv: string)

  function NewMission(id: string, creator: string, target: Option<KnownTarget>, now: int, p: Protector): Mission {
    Mission(id, creator, creator,
            if target.Some? then Some(p.encrypt(target.value.wallet, target.value.iv)) else None,
            if target.Some? then Some(p.hmac(target.value.wallet)) else None,
            target.Some?, ACTIVE, 0, 0, now, None, None, now)
  }

  function MissionOpened(s: MissionStore, id: string, creator: string, target: Option<KnownTarget>, now: int, p: Protector)
    : (MissionStore, Result<Mission>)
  {
    if target.Some? && !target.value.consent then (s, Err(TARGET_CONSENT_REQUIRED))
    else if target.Some? && target.value.wallet == creator then (s, Err(TARGET_IS_CREATOR))
    else MissionCreated(s, NewMission(id, creator, target, now, p))
  }

  function ClaimOpened(s: MissionStore, missionId: string, creator: string, claimId: string, tokenHash: string, now: int)
    : (MissionStore, Result<Claim>)
  {
    if missionId !in s.missions then (s, Err(MISSION_NOT_FOUND))
    else
      var m := s.missions[missionId];
      var existing := LatestClaim(s.claims, missionId);
      if m.creator != creator then (s, Err(NOT_MISSION_AUTHORITY))
      else if m.targetHmac.Some? || m.targetCiphertext.Some? then (s, Err(TARGET_ALREADY_BOUND))
      else if existing.Some? && existing.value.status.PENDING? && now < existing.value.expiresAt then
        (s, Err(DESTINATION_CLAIM_ALREADY_OPEN))
      else
        ClaimCreated(s, Claim(claimId, missionId, tokenHash, ClaimStatus.PENDING, now, now + DESTINATION_CLAIM_TTL_MS, None, None, None))
  }

  function ClaimReissued(s: MissionStore, missionId: string, creator: string, claimId: string, tokenHash: string, now: int)
    : (MissionStore, Result<Claim>)
  {
    if missionId !in s.missions then (s, Err(MISSION_NOT_FOUND))
    else
      var m := s.missions[missionId];
      if m.creator != creator then (s, Err(NOT_MISSION_AUTHORITY))
      else if !m.status.ACTIVE? then (s, Err(MISSION_NOT_ACTIVE))
      else if m.targetHmac.Some? || m.targetCiphertext.Some? then (s, Err(TARGET_ALREADY_BOUND))
      else ClaimOpened(ClaimsRevoked(s, missionId, now), missionId, creator, claimId, tokenHash, now)
  }

  function DestinationClaimed(s: MissionStore, tokenHash: string, wallet: string, iv: string, routeHasWallet: bool, now: int, p: Protector)
    : (MissionStore, Result<Claim>)
  {
    var found := ClaimByToken(s.claims, tokenHash);
    if found.None? then (s, Err(DESTINATION_CLAIM_NOT_FOUND))
    else
      var c := found.value;
      if c.status.CLAIMED? && c.claimedWallet.Some? && c.claimedWallet.value != "" then
        if c.claimedWallet.value != wallet then (s, Err(DESTINATION_CLAIM_TAKEN))
        else if c.missionId !in s.missions then (s, Err(MISSION_NOT_FOUND))
        else (s, Ok(c))
      else if !c.status.PENDING? then (s, Err(DESTINATION_CLAIM_CLOSED))
      else if now >= c.expiresAt then (ClaimsExpired(s, now), Err(DESTINATION_CLAIM_EXPIRED))
      else if c.missionId !in s.missions then (s, Err(MISSION_NOT_FOUND))
      else
        var m := s.missions[c.missionId];
        if !m.status.ACTIVE? then (s, Err(MISSION_NOT_ACTIVE))
        else if wallet == m.creator then (s, Err(TARGET_IS_CREATOR))
        else if routeHasWallet then (s, Err(ROUTE_WALLET_REUSE))
        else DestinationBound(s, Binding(c.id, m.id, wallet, p.encrypt(wallet, iv), p.hmac(wallet), now))
  }

  function MissionCancelledByOwner(s: MissionStore, id: string, signer: string, broadcastRecorded: bool, now: int)
    : (MissionStore, Result<Mission>)
  {
    if broadcastRecorded then (s, Err(BROADCAST_IN_FLIGHT))
    else match MissionCancelled(s, id, signer, now)
      case (t, Err(reason)) => (t, Err(reason))
      case (t, Ok(m)) => (ClaimsRevoked(t, id, now), Ok(m))
  }

  function InvitationOpened(s: MissionStore, missionId: string, signer: string, candidate: Option<string>, id: string, tokenHash: string,
                            routeHasCandidate: bool, now: int)
    : (MissionStore, Result<Invitation>)
  {
    if missionId !in s.missions then (s, Err(MISSION_NOT_FOUND))
    else
      var m := s.missions[missionId];
      if signer != m.currentHolder then (s, Err(WRONG_CURRENT_HOLDER))
      else if candidate.Some? && routeHasCandidate then (s, Err(ROUTE_WALLET_REUSE))
      else
        InvitationCreated(s, Invitation(id, m.id, m.currentSequence + 1, signer, candidate, tokenHash, INVITED, now,
                                        now + INVITATION_TTL_MS, None, None, None, None))
  }

  function InvitationReopened(s: MissionStore, missionId: string, id: string, signer: string, candidate: Option<string>, tokenHash: string,
                              active: ActivePass, routeHasCandidate: bool, now: int)
    : (MissionStore, Result<Invitation>)
  {
    var found := FindInvitation(s.invitations, id);
    if missionId !in s.missions then (s, Err(MISSION_NOT_FOUND))
    else if found.None? then (s, Err(INVITATION_NOT_FOUND))
    else
      var m, v := s.missions[missionId], found.value;
      if !m.status.ACTIVE? then (s, Err(MISSION_NOT_ACTIVE))
      else if m.currentHolder != signer then (s, Err(WRONG_CURRENT_HOLDER))
      else if v.missionId != m.id || v.sequence != m.currentSequence + 1 then (s, Err(INVITATION_SEQUENCE_MISMATCH))
      else if !v.status.EXPIRED? then (s, Err(INVITATION_NOT_REISSUABLE))
      else if active.UnknownPass? then (s, Err(ACTIVE_PASS_RECIPIENT_REQUIRED))
      else if active.PassTo? && candidate != Some(active.wallet) then (s, Err(PASS_INTENT_RECIPIENT_MISMATCH))
      else if candidate.Some? && routeHasCandidate then (s, Err(ROUTE_WALLET_REUSE))
      else InvitationReissued(s, id, tokenHash, candidate, now, now + INVITATION_TTL_MS)
  }

  function InvitationAcceptedBy(s: MissionStore, tokenHash: string, wallet: string, routeHasWallet: bool, now: int)
    : (MissionStore, Result<Invitation>)
  {
    var found := InvitationByToken(s, tokenHash);
    if found.None? then (s, Err(INVITATION_NOT_FOUND))
    else if found.value.status.ACCEPTED? && found.value.candidate == Some(wallet) then (s, Ok(found.value))
    else if routeHasWallet then (s, Err(ROUTE_WALLET_REUSE))
    else InvitationAccepted(s, found.value.id, wallet, now, now + ACCEPTED_PASS_DEADLINE_MS)
  }

  function InvitationDeclined(s: MissionStore, tokenHash: string, now: int): (MissionStore, Result<Invitation>) {
    var found := InvitationByToken(s, tokenHash);
    if found.None? then (s, Err(INVITATION_NOT_FOUND)) else InvitationClosed(s, found.value.id, DECLINED, now)
  }

  function InvitationWithdrawn(s: MissionStore, id: string, signer: string, broadcastRecorded: bool, now: int)
    : (MissionStore, Result<Invitation>)
  {
    var found := FindInvitation(s.invitations, id);
    if found.None? then (s, Err(INVITATION_NOT_FOUND))
    else if found.value.missionId !in s.missions then (s, Err(MISSION_NOT_FOUND))
    else if signer != s.missions[found.value.missionId].currentHolder then (s, Err(WRONG_CURRENT_HOLDER))
    else if broadcastRecorded then (s, Err(BROADCAST_IN_FLIGHT))
    else InvitationClosed(s, id, WITHDRAWN, now)
  }

  // ---------------------------------------------------------------- the operations behind their signatures

  function MissionOpenedBy(s: MissionStore, id: string, auth: WalletAction, target: Option<KnownTarget>, now: int, p: Protector)
    : (MissionStore, Result<Mission>)
  {
    Signed(s, Asserted(auth, CREATE_MISSION, None, None, None), MissionOpened(s, id, auth.wallet, target, now, p))
  }

  function ClaimReissuedBy(s: MissionStore, missionId: string, auth: WalletAction, claimId: string, tokenHash: string, now: int)
    : (MissionStore, Result<Claim>)
  {
    Signed(s, Asserted(auth, CREATE_DESTINATION_CLAIM, Some(missionId), None, None),
           ClaimReissued(s, missionId, auth.wallet, claimId, tokenHash, now))
  }

  function DestinationClaimedBy(s: MissionStore, tokenHash: string, auth: WalletAction, iv: string, routeHasWallet: bool, now: int, p: Protector)
    : (MissionStore, Result<Claim>)
  {
    var found := ClaimByToken(s.claims, tokenHash);
    Signed(s, if found.None? then Err(DESTINATION_CLAIM_NOT_FOUND)
              else Asserted(auth, CLAIM_DESTINATION, Some(found.value.missionId), None, None),
           DestinationClaimed(s, tokenHash, auth.wallet, iv, routeHasWallet, now, p))
  }

  function MissionCancelledBy(s: MissionStore, id: string, auth: WalletAction, broadcastRecorded: bool, now: int): (MissionStore, Result<Mission>) {
    Signed(s, Asserted(auth, CANCEL_MISSION, Some(id), None, None), MissionCancelledByOwner(s, id, auth.wallet, broadcastRecorded, now))
  }

  function InvitationOpenedBy(s: MissionStore, missionId: string, auth: WalletAction, candidate: Option<string>, id: string, tokenHash: string,
                              routeHasCandidate: bool, now: int)
    : (MissionStore, Result<Invitation>)
  {
    Signed(s, if missionId !in s.missions then Err(MISSION_NOT_FOUND)
              else Asserted(auth, CREATE_INVITATION, Some(s.missions[missionId].id), None, Some(s.missions[missionId].currentSequence + 1)),
           InvitationOpened(s, missionId, auth.wallet, candidate, id, tokenHash, routeHasCandidate, now))
  }

  function InvitationReopenedBy(s: MissionStore, missionId: string, id: string, auth: WalletAction, candidate: Option<string>, tokenHash: string,
                                active: ActivePass, routeHasCandidate: bool, now: int)
    : (MissionStore, Result<Invitation>)
  {
    var found := FindInvitation(s.invitations, id);
    Signed(s, if missionId !in s.missions then Err(MISSION_NOT_FOUND)
              else if found.None? then Err(INVITATION_NOT_FOUND)
              else Asserted(auth, CREATE_INVITATION, Some(s.missions[missionId].id), Some(found.value.id),
                            Some(s.missions[missionId].currentSequence + 1)),
           InvitationReopened(s, missionId, id, auth.wallet, candidate, tokenHash, active, routeHasCandidate, now))
  }

  function InvitationAssertion(found: Option<Invitation>, auth: WalletAction, action: MissionAction): Result<()> {
    if found.None? then Err(INVITATION_NOT_FOUND)
    else Asserted(auth, action, Some(found.value.missionId), Some(found.value.id), Some(found.value.sequence))
  }

  function InvitationAcceptedWith(s: MissionStore, tokenHash: string, auth: WalletAction, routeHasWallet: bool, now: int)
    : (MissionStore, Result<Invitation>)
  {
    Signed(s, InvitationAssertion(InvitationByToken(s, tokenHash), auth, ACCEPT_INVITATION),
           InvitationAcceptedBy(s, tokenHash, auth.wallet, routeHasWallet, now))
  }

  function InvitationWithdrawnBy(s: MissionStore, id: string, auth: WalletAction, broadcastRecorded: bool, now: int)
    : (MissionStore, Result<Invitation>)
  {
    Signed(s, InvitationAssertion(FindInvitation(s.invitations, id), auth, WITHDRAW_INVITATION),
           InvitationWithdrawn(s, id, auth.wallet, broadcastRecorded, now))
  }

  datatype Activity = LIVELY | STALLED | TERMINAL

  function MissionActivity(m: Mission, now: int): Activity {
    if !m.status.ACTIVE? then TERMINAL else if now - m.updatedAt > MISSION_STALL_THRESHOLD_MS then STALLED else LIVELY
  }

  // ---------------------------------------------------------------- the service object

  class ReachMissionService {
    const repository: FileMissionRepository
    const protector: Protector
    /** A guard is the relay it closes over; null is the initial guard, which always answers false. */
    var broadcastGuard: RelayStore?
    var routeWalletGuard: RelayStore?

    constructor (repository: FileMissionRepository, protector: Protector)
      ensures this.repository == repository && this.protector == protector
      ensures broadcastGuard == null && routeWalletGuard == null
    {
      this.repository, this.protector := repository, protector;
      broadcastGuard, routeWalletGuard := null, null;
    }

    method SetBroadcastGuard(guard: RelayStore)
      modifies this`broadcastGuard
      ensures broadcastGuard == guard
    {
      broadcastGuard := guard;
    }

    method SetRouteWalletGuard(guard: RelayStore)
      modifies this`routeWalletGuard
      ensures routeWalletGuard == guard
    {
      routeWalletGuard := guard;
    }

    predicate IsBroadcast(id: string)
      reads this, broadcastGuard
    {
      var guard := broadcastGuard;
      guard != null && HasRecordedBroadcast(Relay(guard.intents, guard.hops, guard.holders), id)
    }

    predicate IsOnRoute(id: string, wallet: string)
      reads this, routeWalletGuard
    {
      var guard := routeWalletGuard;
      guard != null && InFinalRoute(Relay(guard.intents, guard.hops, guard.holders), id, wallet)
    }

    method CreateMission(id: string, auth: WalletAction, target: Option<KnownTarget>, now: int) returns (res: Result<Mission>)
      modifies repository
      ensures (repository.State(), res) == MissionOpenedBy(old(repository.State()), id, auth, target, now, protector)
    {
      var asserted := Asserted(auth, CREATE_MISSION, None, None, None);
      if asserted.Err? {
        return Err(asserted.reason);
      }
      if target.Some? && !target.value.consent {
        return Err(TARGET_CONSENT_REQUIRED);
      }
      if target.Some? && target.value.wallet == auth.wallet {
        return Err(TARGET_IS_CREATOR);
      }
      res := repository.CreateMission(NewMission(id, auth.wallet, target, now, protector));
    }

    method CreateDestinationClaim(missionId: string, creator: string, claimId: string, tokenHash: string, now: int) returns (res: Result<Claim>)
      modifies repository
      ensures (repository.State(), res) == ClaimOpened(old(repository.State()), missionId, creator, claimId, tokenHash, now)
    {
      if missionId !in repository.missions {
        return Err(MISSION_NOT_FOUND);
      }
      var m := repository.missions[missionId];
      if m.creator != creator {
        return Err(NOT_MISSION_AUTHORITY);
      }
      if m.targetHmac.Some? || m.targetCiphertext.Some? {
        return Err(TARGET_ALREADY_BOUND);
      }
      var existing := LatestClaim(repository.claims, missionId);
      if existing.Some? && existing.value.status.PENDING? && now < existing.value.expiresAt {
        return Err(DESTINATION_CLAIM_ALREADY_OPEN);
      }
      res := repository.CreateDestinationClaim(
        Claim(claimId, missionId, tokenHash, ClaimStatus.PENDING, now, now + DESTINATION_CLAIM_TTL_MS, None, None, None));
    }

    method ReissueDestinationClaim(missionId: string, auth: WalletAction, claimId: string, tokenHash: string, now: int) returns (res: Result<Claim>)
      modifies repository
      ensures (repository.State(), res) == ClaimReissuedBy(old(repository.State()), missionId, auth, claimId, tokenHash, now)
    {
      var asserted := Asserted(auth, CREATE_DESTINATION_CLAIM, Some(missionId), None, None);
      if asserted.Err? {
        return Err(asserted.reason);
      }
      if missionId !in repository.missions {
        return Err(MISSION_NOT_FOUND);
      }
      var m := repository.missions[missionId];
      if m.creator != auth.wallet {
        return Err(NOT_MISSION_AUTHORITY);
      }
      if !m.status.ACTIVE? {
        return Err(MISSION_NOT_ACTIVE);
      }
      if m.targetHmac.Some? || m.targetCiphertext.Some? {
        return Err(TARGET_ALREADY_BOUND);
      }
      var _ := repository.RevokePendingDestinationClaim(missionId, now);
      res := CreateDestinationClaim(missionId, auth.wallet, claimId, tokenHash, now);
    }

    method ClaimDestination(tokenHash: string, auth: WalletAction, iv: string, now: int) returns (res: Result<Claim>)
      modifies repository
      ensures var claim := ClaimByToken(old(repository.claims), tokenHash);
              var route := claim.Some? && IsOnRoute(claim.value.missionId, auth.wallet);
              (repository.State(), res) == DestinationClaimedBy(old(repository.State()), tokenHash, auth, iv, route, now, protector)
    {
      var found := ClaimByToken(repository.claims, tokenHash);
      if found.None? {
        return Err(DESTINATION_CLAIM_NOT_FOUND);
      }
      var c, wallet := found.value, auth.wallet;
      var asserted := Asserted(auth, CLAIM_DESTINATION, Some(c.missionId), None, None);
      if asserted.Err? {
        return Err(asserted.reason);
      }
      if c.status.CLAIMED? && c.claimedWallet.Some? && c.claimedWallet.value != "" {
        if c.claimedWallet.value != wallet {
          return Err(DESTINATION_CLAIM_TAKEN);
        }
        return if c.missionId !in repository.missions then Err(MISSION_NOT_FOUND) else Ok(c);
      }
      if !c.status.PENDING? {
        return Err(DESTINATION_CLAIM_CLOSED);
      }
      if now >= c.expiresAt {
        var _ := repository.ExpireDueDestinationClaims(now);
        return Err(DESTINATION_CLAIM_EXPIRED);
      }
      if c.missionId !in repository.missions {
        return Err(MISSION_NOT_FOUND);
      }
      var m := repository.missions[c.missionId];
      if !m.status.ACTIVE? {
        return Err(MISSION_NOT_ACTIVE);
      }
      if wallet == m.creator {
        return Err(TARGET_IS_CREATOR);
      }
      if IsOnRoute(c.missionId, wallet) {
        return Err(ROUTE_WALLET_REUSE);
      }
      res := repository.ClaimDestination(Missions.Binding(c.id, m.id, wallet, protector.encrypt(wallet, iv), protector.hmac(wallet), now));
    }

    method CancelMission(id: string, auth: WalletAction, now: int) returns (res: Result<Mission>)
      modifies repository
      ensures (repository.State(), res) == MissionCancelledBy(old(repository.State()), id, auth, IsBroadcast(id), now)
    {
      var asserted := Asserted(auth, CANCEL_MISSION, Some(id), None, None);
      if asserted.Err? {
        return Err(asserted.reason);
      }
      if IsBroadcast(id) {
        return Err(BROADCAST_IN_FLIGHT);
      }
      res := repository.CancelMissionPristine(id, auth.wallet, now);
      if res.Ok? {
        var _ := repository.RevokePendingDestinationClaim(id, now);
      }
    }

    method CreateInvitation(missionId: string, auth: WalletAction, candidate: Option<string>, id: string, tokenHash: string, now: int)
      returns (res: Result<Invitation>)
      modifies repository
      ensures var route := candidate.Some? && IsOnRoute(missionId, candidate.value);
              (repository.State(), res) == InvitationOpenedBy(old(repository.State()), missionId, auth, candidate, id, tokenHash, route, now)
    {
      if missionId !in repository.missions {
        return Err(MISSION_NOT_FOUND);
      }
      var m, signer := repository.missions[missionId], auth.wallet;
      var asserted := Asserted(auth, CREATE_INVITATION, Some(m.id), None, Some(m.currentSequence + 1));
      if asserted.Err? {
        return Err(asserted.reason);
      }
      if signer != m.currentHolder {
        return Err(WRONG_CURRENT_HOLDER);
      }
      if candidate.Some? && IsOnRoute(missionId, candidate.value) {
        return Err(ROUTE_WALLET_REUSE);
      }
      res := repository.CreateInvitation(
        Invitation(id, m.id, m.currentSequence + 1, signer, candidate, tokenHash, INVITED, now, now + INVITATION_TTL_MS, None, None, None, None));
    }

    method ReissueInvitation(missionId: string, id: string, auth: WalletAction, candidate: Option<string>, tokenHash: string,
                             active: ActivePass, now: int)
      returns (res: Result<Invitation>)
      modifies repository
      ensures var route := candidate.Some? && IsOnRoute(missionId, candidate.value);
              (repository.State(), res) == InvitationReopenedBy(old(repository.State()), missionId, id, auth, candidate, tokenHash,
                                                                active, route, now)
    {
      if missionId !in repository.missions {
        return Err(MISSION_NOT_FOUND);
      }
      var found := FindInvitation(repository.invitations, id);
      if found.None? {
        return Err(INVITATION_NOT_FOUND);
      }
      var m, v := repository.missions[missionId], found.value;
      var asserted := Asserted(auth, CREATE_INVITATION, Some(m.id), Some(v.id), Some(m.currentSequence + 1));
      if asserted.Err? {
        return Err(asserted.reason);
      }
      if !m.status.ACTIVE? {
        return Err(MISSION_NOT_ACTIVE);
      }
      if m.currentHolder != auth.wallet {
        return Err(WRONG_CURRENT_HOLDER);
      }
      if v.missionId != m.id || v.sequence != m.currentSequence + 1 {
        return Err(INVITATION_SEQUENCE_MISMATCH);
      }
      if !v.status.EXPIRED? {
        return Err(INVITATION_NOT_REISSUABLE);
      }
      if active.UnknownPass? {
        return Err(ACTIVE_PASS_RECIPIENT_REQUIRED);
      }
      if active.PassTo? && candidate != Some(active.wallet) {
        return Err(PASS_INTENT_RECIPIENT_MISMATCH);
      }
      if candidate.Some? && IsOnRoute(missionId, candidate.value) {
        return Err(ROUTE_WALLET_REUSE);
      }
      res := repository.ReissueInvitation(id, tokenHash, candidate, now, now + INVITATION_TTL_MS);
    }

    method AcceptInvitation(tokenHash: string, auth: WalletAction, now: int) returns (res: Result<Invitation>)
      modifies repository
      ensures var invitation := InvitationByToken(old(repository.State()), tokenHash);
              var route := invitation.Some? && IsOnRoute(invitation.value.missionId, auth.wallet);
              (repository.State(), res) == InvitationAcceptedWith(old(repository.State()), tokenHash, auth, route, now)
    {
      var found := InvitationByToken(MissionStore(repository.missions, repository.invitations, repository.claims), tokenHash);
      if found.None? {
        return Err(INVITATION_NOT_FOUND);
      }
      var wallet, asserted := auth.wallet, InvitationAssertion(found, auth, ACCEPT_INVITATION);
      if asserted.Err? {
        return Err(asserted.reason);
      }
      if found.value.status.ACCEPTED? && found.value.candidate == Some(wallet) {
        return Ok(found.value);
      }
      if IsOnRoute(found.value.missionId, wallet) {
        return Err(ROUTE_WALLET_REUSE);
      }
      res := repository.AcceptInvitation(found.value.id, wallet, now, now + ACCEPTED_PASS_DEADLINE_MS);
    }

    method DeclineInvitation(tokenHash: string, now: int) returns (res: Result<Invitation>)
      modifies repository
      ensures (repository.State(), res) == InvitationDeclined(old(repository.State()), tokenHash, now)
    {
      var found := InvitationByToken(MissionStore(repository.missions, repository.invitations, repository.claims), tokenHash);
      if found.None? {
        return Err(INVITATION_NOT_FOUND);
      }
      res := repository.CloseInvitation(found.value.id, DECLINED, now);
    }

    method WithdrawInvitation(id: string, auth: WalletAction, now: int) returns (res: Result<Invitation>)
      modifies repository
      ensures var invitation := FindInvitation(old(repository.invitations), id);
              var broadcast := invitation.Some? && IsBroadcast(invitation.value.missionId);
              (repository.State(), res) == InvitationWithdrawnBy(old(repository.State()), id, auth, broadcast, now)
    {
      var found := FindInvitation(repository.invitations, id);
      if found.None? {
        return Err(INVITATION_NOT_FOUND);
      }
      var asserted := InvitationAssertion(found, auth, WITHDRAW_INVITATION);
      if asserted.Err? {
        return Err(asserted.reason);
      }
      if found.value.missionId !in repository.missions {
        return Err(MISSION_NOT_FOUND);
      }
      if auth.wallet != repository.missions[found.value.missionId].currentHolder {
        return Err(WRONG_CURRENT_HOLDER);
      }
      if IsBroadcast(found.value.missionId) {
        return Err(BROADCAST_IN_FLIGHT);
      }
      res := repository.CloseInvitation(id, WITHDRAWN, now);
    }
  }
}
