/** The file-backed mission repository: records edited in place, one exclusive section per method. */
module MissionRepository {
  import opened Domain
  import opened Missions

  function DueClaim(now: int): Claim -> bool {
    c => IsDueClaim(c, now)
  }

  function RevocableClaim(missionId: string): Claim -> bool {
    c => IsRevocable(c, missionId)
  }

  function DueInvitation(now: int): Invitation -> bool {
    v => IsDueInvitation(v, now)
  }

  class FileMissionRepository {
    var missions: map<string, Mission>
    var invitations: seq<Invitation>
    var claims: seq<Claim>

    ghost function State(): MissionStore
      reads this
    {
      MissionStore(missions, invitations, claims)
    }

    constructor (state: MissionStore)
      ensures State() == state
    {
      missions, invitations, claims := state.missions, state.invitations, state.claims;
    }

    method TouchMission(id: string, now: int)
      modifies this`missions
      ensures State() == Touch(old(State()), id, now)
    {
      if id in missions {
        missions := missions[id := missions[id].(updatedAt := now)];
      }
    }

    method CreateMission(m: Mission) returns (res: Result<Mission>)
      modifies this
      ensures (State(), res) == MissionCreated(old(State()), m)
    {
      if m.id in missions {
        return Err(MISSION_EXISTS);
      }
      missions := missions[m.id := m];
      return Ok(m);
    }

    method CancelMissionPristine(id: string, signer: string, now: int) returns (res: Result<Mission>)
      modifies this
      ensures (State(), res) == MissionCancelled(old(State()), id, signer, now)
    {
      if id !in missions {
        return Err(MISSION_NOT_FOUND);
      }
      var m := missions[id];
      if !m.status.ACTIVE? {
        return Err(MISSION_NOT_ACTIVE);
      }
      if m.creator != signer && m.currentHolder != signer {
        return Err(NOT_MISSION_AUTHORITY);
      }
      if m.finalizedHopCount != 0 {
        return Err(MISSION_ALREADY_MOVED);
      }
      if OpenInvitation(MissionStore(missions, invitations, claims), id).Some? {
        return Err(OPEN_INVITATION);
      }
      m := m.(status := MissionStatus.CANCELLED, cancelledAt := Some(now), updatedAt := now);
      missions := missions[id := m];
      return Ok(m);
    }

    method CreateDestinationClaim(c: Claim) returns (res: Result<Claim>)
      modifies this
      ensures (State(), res) == ClaimCreated(old(State()), c)
    {
      if c.missionId !in missions {
        return Err(MISSION_NOT_FOUND);
      }
      var m := missions[c.missionId];
      if !m.status.ACTIVE? {
        return Err(MISSION_NOT_ACTIVE);
      }
      if m.targetHmac.Some? || m.targetCiphertext.Some? {
        return Err(TARGET_ALREADY_BOUND);
      }
      if exists i | 0 <= i < |claims| :: claims[i].missionId == c.missionId && claims[i].status.PENDING? {
        return Err(DESTINATION_CLAIM_ALREADY_OPEN);
      }
      if exists i | 0 <= i < |claims| :: claims[i].tokenHash == c.tokenHash {
        return Err(DESTINATION_CLAIM_TOKEN_COLLISION);
      }
      claims := claims + [c];
      TouchMission(c.missionId, c.createdAt);
      return Ok(c);
    }

    method ClaimDestination(b: Binding) returns (res: Result<Claim>)
      modifies this
      ensures (State(), res) == DestinationBound(old(State()), b)
    {
      var i := ClaimIndex(claims, b.claimId);
      if b.missionId !in missions {
        return Err(MISSION_NOT_FOUND);
      }
      if i == |claims| {
        return Err(DESTINATION_CLAIM_NOT_FOUND);
      }
      var m, c := missions[b.missionId], claims[i];
      if c.missionId != b.missionId {
        return Err(DESTINATION_CLAIM_MISSION_MISMATCH);
      }
      if c.status.CLAIMED? && c.claimedWallet == Some(b.wallet) {
        return Ok(c);
      }
      if !c.status.PENDING? {
        return Err(DESTINATION_CLAIM_CLOSED);
      }
      if b.at >= c.expiresAt {
        claims := claims[i := c.(status := ClaimStatus.EXPIRED, closedAt := Some(b.at))];
        TouchMission(b.missionId, b.at);
        return Err(DESTINATION_CLAIM_EXPIRED);
      }
      if !m.status.ACTIVE? {
        return Err(MISSION_NOT_ACTIVE);
      }
      if m.targetHmac.Some? || m.targetCiphertext.Some? {
        return Err(TARGET_ALREADY_BOUND);
      }
      if b.wallet == m.creator {
        return Err(TARGET_IS_CREATOR);
      }
      missions := missions[b.missionId := m.(targetCiphertext := Some(b.ciphertext), targetHmac := Some(b.hmac),
                                             targetConsent := true, updatedAt := b.at)];
      c := c.(status := CLAIMED, claimedWallet := Some(b.wallet), claimedAt := Some(b.at), closedAt := Some(b.at));
      claims := claims[i := c];
      return Ok(c);
    }

    method ExpireDueDestinationClaims(now: int) returns (count: nat)
      modifies this
      ensures State() == ClaimsExpired(old(State()), now)
      ensures count == Count(old(claims), DueClaim(now))
    {
      count := 0;
      ghost var before := State();
      for i := 0 to |claims|
        invariant |claims| == |before.claims| && invitations == before.invitations
        invariant forall j | 0 <= j < i :: claims[j] == Lapsed(before.claims[j], now)
        invariant forall j | i <= j < |claims| :: claims[j] == before.claims[j]
        invariant missions == TouchedByClaims(before.missions, before.claims[..i], now)
        invariant count == Count(before.claims[..i], DueClaim(now))
      {
        CountOneMore(before.claims, i, DueClaim(now));
        OneMoreTouched(before.missions, before.claims, i, now);
        var c := claims[i];
        if c.status.PENDING? && now >= c.expiresAt {
          claims := claims[i := c.(status := ClaimStatus.EXPIRED, closedAt := Some(now))];
          TouchMission(c.missionId, now);
          count := count + 1;
        }
      }
      assert before.claims[..|claims|] == before.claims;
      assert claims == ClaimsExpired(before, now).claims;
    }

    static lemma OneMoreTouched(missions: map<string, Mission>, claims: seq<Claim>, i: nat, now: int)
      requires i < |claims|
      ensures var c, touched := claims[i], TouchedByClaims(missions, claims[..i], now);
              TouchedByClaims(missions, claims[..i + 1], now)
              == if IsDueClaim(c, now) && c.missionId in missions
                 then touched[c.missionId := touched[c.missionId].(updatedAt := now)] else touched
    {
      OneMoreClaim(claims, i, now);
    }

    static lemma OneMoreClaim(claims: seq<Claim>, i: nat, now: int)
      requires i < |claims|
      ensures forall id :: HasDueClaim(claims[..i + 1], id, now)
                      <==> HasDueClaim(claims[..i], id, now) || (claims[i].missionId == id && IsDueClaim(claims[i], now))
    {
      var longer, shorter := claims[..i + 1], claims[..i];
      forall id ensures HasDueClaim(longer, id, now) <==> HasDueClaim(shorter, id, now) || (claims[i].missionId == id && IsDueClaim(claims[i], now)) {
        if HasDueClaim(longer, id, now) {
          var j :| 0 <= j < |longer| && longer[j].missionId == id && IsDueClaim(longer[j], now);
          assert j < i ==> shorter[j] == longer[j];
        }
        if HasDueClaim(shorter, id, now) {
          var j :| 0 <= j < |shorter| && shorter[j].missionId == id && IsDueClaim(shorter[j], now);
          assert longer[j] == shorter[j];
        }
        assert longer[i] == claims[i];
      }
    }

    method RevokePendingDestinationClaim(missionId: string, now: int) returns (count: nat)
      modifies this
      ensures State() == ClaimsRevoked(old(State()), missionId, now)
      ensures count == Count(old(claims), RevocableClaim(missionId))
    {
      count := 0;
      ghost var before := State();
      for i := 0 to |claims|
        invariant |claims| == |before.claims| && invitations == before.invitations && missions == before.missions
        invariant forall j | 0 <= j < i :: claims[j] == Revoked(before.claims[j], missionId, now)
        invariant forall j | i <= j < |claims| :: claims[j] == before.claims[j]
        invariant count == Count(before.claims[..i], RevocableClaim(missionId))
      {
        CountOneMore(before.claims, i, RevocableClaim(missionId));
        var c := claims[i];
        if c.missionId == missionId && c.status.PENDING? {
          claims := claims[i := c.(status := REVOKED, closedAt := Some(now))];
          count := count + 1;
        }
      }
      assert before.claims[..|claims|] == before.claims;
      CountIsPositive(before.claims, RevocableClaim(missionId));
      assert claims == seq(|before.claims|, j requires 0 <= j < |before.claims| => Revoked(before.claims[j], missionId, now));
      if count > 0 {
        TouchMission(missionId, now);
      }
    }

    method CreateInvitation(v: Invitation) returns (res: Result<Invitation>)
      modifies this
      ensures (State(), res) == InvitationCreated(old(State()), v)
    {
      if v.missionId !in missions {
        return Err(MISSION_NOT_FOUND);
      }
      var m := missions[v.missionId];
      if !m.status.ACTIVE? {
        return Err(MISSION_NOT_ACTIVE);
      }
      if v.inviter != m.currentHolder {
        return Err(WRONG_CURRENT_HOLDER);
      }
      if v.sequence != m.currentSequence + 1 {
        return Err(WRONG_SEQUENCE);
      }
      var state := MissionStore(missions, invitations, claims);
      if OpenInvitation(state, v.missionId).Some? {
        return Err(OPEN_INVITATION_EXISTS);
      }
      if InvitationByToken(state, v.tokenHash).Some? {
        return Err(INVITE_TOKEN_COLLISION);
      }
      if v.candidate == Some(v.inviter) {
        return Err(SELF_PASS);
      }
      invitations := invitations + [v];
      TouchMission(v.missionId, v.createdAt);
      return Ok(v);
    }

    method ReissueInvitation(id: string, tokenHash: string, candidate: Option<string>, now: int, expiresAt: int)
      returns (res: Result<Invitation>)
      modifies this
      ensures (State(), res) == InvitationReissued(old(State()), id, tokenHash, candidate, now, expiresAt)
    {
      var i := InvitationIndex(invitations, id);
      if i == |invitations| {
        return Err(INVITATION_NOT_FOUND);
      }
      var v := invitations[i];
      if !v.status.EXPIRED? {
        return Err(INVITATION_NOT_REISSUABLE);
      }
      if exists j | 0 <= j < |invitations| :: invitations[j].id != id && invitations[j].tokenHash == tokenHash {
        return Err(INVITE_TOKEN_COLLISION);
      }
      v := v.(candidate := candidate, tokenHash := tokenHash, status := INVITED, createdAt := now, expiresAt := expiresAt,
              acceptedAt := None, passDeadlineAt := None, completedAt := None, closedAt := None);
      invitations := invitations[i := v];
      TouchMission(v.missionId, now);
      return Ok(v);
    }

    method AcceptInvitation(id: string, wallet: string, now: int, deadline: int) returns (res: Result<Invitation>)
      modifies this
      ensures (State(), res) == InvitationAccepted(old(State()), id, wallet, now, deadline)
    {
      var i := InvitationIndex(invitations, id);
      if i == |invitations| {
        return Err(INVITATION_NOT_FOUND);
      }
      var v := invitations[i];
      if v.missionId !in missions {
        return Err(MISSION_NOT_FOUND);
      }
      if !missions[v.missionId].status.ACTIVE? {
        return Err(MISSION_NOT_ACTIVE);
      }
      if !v.status.INVITED? {
        return Err(INVITATION_NOT_INVITED);
      }
      if now >= v.expiresAt {
        invitations := invitations[i := v.(status := InvitationStatus.EXPIRED, closedAt := Some(now))];
        TouchMission(v.missionId, now);
        return Err(INVITATION_EXPIRED);
      }
      if wallet == v.inviter {
        return Err(SELF_PASS);
      }
      if v.candidate.Some? && v.candidate.value != "" && v.candidate.value != wallet {
        return Err(WRONG_INVITEE_WALLET);
      }
      v := v.(candidate := Some(wallet), status := ACCEPTED, acceptedAt := Some(now), passDeadlineAt := Some(deadline));
      invitations := invitations[i := v];
      TouchMission(v.missionId, now);
      return Ok(v);
    }

    method CloseInvitation(id: string, status: InvitationStatus, now: int) returns (res: Result<Invitation>)
      modifies this
      ensures (State(), res) == InvitationClosed(old(State()), id, status, now)
    {
      var i := InvitationIndex(invitations, id);
      if i == |invitations| {
        return Err(INVITATION_NOT_FOUND);
      }
      var v := invitations[i];
      if v.missionId !in missions {
        return Err(MISSION_NOT_FOUND);
      }
      if !IsOpen(v) {
        return Err(INVITATION_ALREADY_CLOSED);
      }
      if status.DECLINED? && !v.status.INVITED? {
        return Err(CANNOT_DECLINE_ACCEPTED);
      }
      if status.EXPIRED? && !IsDueInvitation(v, now) {
        return Err(INVITATION_NOT_DUE);
      }
      v := v.(status := status, closedAt := Some(now));
      invitations := invitations[i := v];
      TouchMission(v.missionId, now);
      return Ok(v);
    }

    method ExpireDueInvitations(now: int) returns (count: nat)
      modifies this
      ensures State() == InvitationsExpired(old(State()), now)
      ensures count == Count(old(invitations), DueInvitation(now))
    {
      count := 0;
      ghost var before := State();
      var touched: set<string> := {};
      for i := 0 to |invitations|
        invariant |invitations| == |before.invitations| && claims == before.claims && missions == before.missions
        invariant forall j | 0 <= j < i :: invitations[j] == LapsedInvitation(before.invitations[j], now)
        invariant forall j | i <= j < |invitations| :: invitations[j] == before.invitations[j]
        invariant forall id :: id in touched <==> HasDueInvitation(before.invitations[..i], id, now)
        invariant count == Count(before.invitations[..i], DueInvitation(now))
      {
        CountOneMore(before.invitations, i, DueInvitation(now));
        OneMoreInvitation(before.invitations, i, now);
        var v := invitations[i];
        if IsDueInvitation(v, now) {
          invitations := invitations[i := v.(status := InvitationStatus.EXPIRED, closedAt := Some(now))];
          touched := touched + {v.missionId};
          count := count + 1;
        }
      }
      assert before.invitations[..|invitations|] == before.invitations;
      missions := map id | id in missions :: if id in touched then missions[id].(updatedAt := now) else missions[id];
      assert invitations == InvitationsExpired(before, now).invitations;
    }

    static lemma OneMoreInvitation(invitations: seq<Invitation>, i: nat, now: int)
      requires i < |invitations|
      ensures forall id :: HasDueInvitation(invitations[..i + 1], id, now)
                      <==> HasDueInvitation(invitations[..i], id, now)
                           || (invitations[i].missionId == id && IsDueInvitation(invitations[i], now))
    {
      var longer, shorter := invitations[..i + 1], invitations[..i];
      forall id
        ensures HasDueInvitation(longer, id, now)
           <==> HasDueInvitation(shorter, id, now) || (invitations[i].missionId == id && IsDueInvitation(invitations[i], now))
      {
        if HasDueInvitation(longer, id, now) {
          var j :| 0 <= j < |longer| && longer[j].missionId == id && IsDueInvitation(longer[j], now);
          assert j < i ==> shorter[j] == longer[j];
        }
        if HasDueInvitation(shorter, id, now) {
          var j :| 0 <= j < |shorter| && shorter[j].missionId == id && IsDueInvitation(shorter[j], now);
          assert longer[j] == shorter[j];
        }
        assert longer[i] == invitations[i];
      }
    }

    method CompleteDirectFinalHop(id: string, sequence: int, wallet: string, hmac: string, now: int) returns (res: Result<()>)
      modifies this
      ensures (State(), res) == DirectHopCompleted(old(State()), id, sequence, wallet, hmac, now)
    {
      if id !in missions {
        return Err(MISSION_NOT_FOUND);
      }
      var m := missions[id];
      if m.status.ARRIVED? && m.currentSequence >= sequence {
        return Ok(());
      }
      if !m.status.ACTIVE? {
        return Err(MISSION_NOT_ACTIVE);
      }
      if m.targetHmac.None? || m.targetCiphertext.None? || !m.targetConsent {
        return Err(TARGET_NOT_BOUND);
      }
      if hmac != m.targetHmac.value {
        return Err(WRONG_FINAL_RECIPIENT);
      }
      if m.currentSequence + 1 != sequence {
        return Err(FINALIZATION_SEQUENCE_RACE);
      }
      missions := missions[id := m.(currentSequence := sequence, finalizedHopCount := m.finalizedHopCount + 1,
                                    currentHolder := wallet, status := ARRIVED, arrivedAt := Some(now), updatedAt := now)];
      return Ok(());
    }

    method CompleteFinalHop(id: string, invitationId: string, sequence: int, wallet: string, hmac: string, now: int)
      returns (res: Result<()>)
      modifies this
      ensures (State(), res) == IntroducedHopCompleted(old(State()), id, invitationId, sequence, wallet, hmac, now)
    {
      var i := InvitationIndex(invitations, invitationId);
      if id !in missions {
        return Err(MISSION_NOT_FOUND);
      }
      if i == |invitations| {
        return Err(INVITATION_NOT_FOUND);
      }
      var m, v := missions[id], invitations[i];
      if v.missionId != id || v.sequence != sequence {
        return Err(INVITATION_HOP_MISMATCH);
      }
      if v.status.COMPLETED? && m.currentSequence >= sequence {
        return Ok(());
      }
      if !m.status.ACTIVE? {
        return Err(MISSION_NOT_ACTIVE);
      }
      if !v.status.ACCEPTED? {
        return Err(INVITATION_NOT_ACCEPTED);
      }
      if m.targetHmac != Some(hmac) {
        return Err(WRONG_FINAL_RECIPIENT);
      }
      if m.currentSequence + 1 != sequence {
        return Err(FINALIZATION_SEQUENCE_RACE);
      }
      invitations := invitations[i := v.(status := COMPLETED, completedAt := Some(now), closedAt := Some(now))];
      missions := missions[id := m.(currentSequence := sequence, finalizedHopCount := m.finalizedHopCount + 1,
                                    currentHolder := wallet, status := ARRIVED, arrivedAt := Some(now), updatedAt := now)];
      return Ok(());
    }
  }
}
