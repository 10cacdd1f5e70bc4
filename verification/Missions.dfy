/** Mission, invitation and destination-claim records, and the repository transitions on them. */
module Missions {
  import opened Domain

  datatype MissionStatus = ACTIVE | ARRIVED | CANCELLED
  datatype InvitationStatus = INVITED | ACCEPTED | DECLINED | EXPIRED | WITHDRAWN | COMPLETED
  datatype ClaimStatus = PENDING | CLAIMED | EXPIRED | REVOKED

  datatype Mission = Mission(
    id: string,
    creator: string,
    currentHolder: string,
    targetCiphertext: Option<string>,
    targetHmac: Option<string>,
    targetConsent: bool,
    status: MissionStatus,
    finalizedHopCount: int,
    currentSequence: int,
    createdAt: int,
    arrivedAt: Option<int>,
    cancelledAt: Option<int>,
    updatedAt: int)

  datatype Invitation = Invitation(
    id: string,
    missionId: string,
    sequence: int,
    inviter: string,
    candidate: Option<string>,
    tokenHash: string,
    status: InvitationStatus,
    createdAt: int,
    expiresAt: int,
    acceptedAt: Option<int>,
    passDeadlineAt: Option<int>,
    completedAt: Option<int>,
    closedAt: Option<int>)

  datatype Claim = Claim(
    id: string,
    missionId: string,
    tokenHash: string,
    status: ClaimStatus,
    createdAt: int,
    expiresAt: int,
    claimedAt: Option<int>,
    closedAt: Option<int>,
    claimedWallet: Option<string>)

  /** Missions are only ever looked up by id; invitations and claims keep their array order. */
  datatype MissionStore = MissionStore(missions: map<string, Mission>, invitations: seq<Invitation>, claims: seq<Claim>)

  const NO_MISSIONS := MissionStore(map[], [], [])

  // ---------------------------------------------------------------- lookups

  /** How many records satisfy the test. */
  function Count<T>(records: seq<T>, wanted: T -> bool): nat {
    if |records| == 0 then 0
    else Count(records[..|records| - 1], wanted) + if wanted(records[|records| - 1]) then 1 else 0
  }

  lemma CountOneMore<T>(records: seq<T>, i: nat, wanted: T -> bool)
    requires i < |records|
    ensures Count(records[..i + 1], wanted) == Count(records[..i], wanted) + if wanted(records[i]) then 1 else 0
  {
    assert records[..i + 1][..i] == records[..i];
  }

  lemma {:induction false} CountIsPositive<T>(records: seq<T>, wanted: T -> bool)
    ensures Count(records, wanted) > 0 <==> exists i | 0 <= i < |records| :: wanted(records[i])
  {
    if |records| > 0 {
      var last := |records| - 1;
      CountIsPositive(records[..last], wanted);
      assert forall i | 0 <= i < last :: records[..last][i] == records[i];
    }
  }

  predicate IsOpen(i: Invitation) {
    i.status.INVITED? || i.status.ACCEPTED?
  }

  function InvitationIndex(s: seq<Invitation>, id: string): (i: nat)
    ensures i <= |s| && (i < |s| ==> s[i].id == id) && forall j | 0 <= j < i :: s[j].id != id
  {
    if |s| == 0 || s[0].id == id then 0 else 1 + InvitationIndex(s[1..], id)
  }

  function FindInvitation(s: seq<Invitation>, id: string): Option<Invitation> {
    var i := InvitationIndex(s, id);
    if i < |s| then Some(s[i]) else None
  }

  function FirstInvitation(s: seq<Invitation>, wanted: Invitation -> bool): (r: Option<Invitation>)
    ensures r.Some? ==> r.value in s && wanted(r.value)
    ensures r.None? ==> forall i | 0 <= i < |s| :: !wanted(s[i])
  {
    if |s| == 0 then None else if wanted(s[0]) then Some(s[0]) else FirstInvitation(s[1..], wanted)
  }

  function OpenInvitation(s: MissionStore, missionId: string): Option<Invitation> {
    FirstInvitation(s.invitations, (i: Invitation) => i.missionId == missionId && IsOpen(i))
  }

  function InvitationForSequence(s: MissionStore, missionId: string, sequence: int): Option<Invitation> {
    FirstInvitation(s.invitations, (i: Invitation) => i.missionId == missionId && i.sequence == sequence)
  }

  function InvitationByToken(s: MissionStore, tokenHash: string): Option<Invitation> {
    FirstInvitation(s.invitations, (i: Invitation) => i.tokenHash == tokenHash)
  }

  function ClaimIndex(s: seq<Claim>, id: string): (i: nat)
    ensures i <= |s| && (i < |s| ==> s[i].id == id) && forall j | 0 <= j < i :: s[j].id != id
  {
    if |s| == 0 || s[0].id == id then 0 else 1 + ClaimIndex(s[1..], id)
  }

  function ClaimByToken(s: seq<Claim>, tokenHash: string): (r: Option<Claim>)
    ensures r.Some? ==> r.value in s && r.value.tokenHash == tokenHash
  {
    if |s| == 0 then None else if s[0].tokenHash == tokenHash then Some(s[0]) else ClaimByToken(s[1..], tokenHash)
  }

  /** The latest claim of the mission, as the Postgres adapter answers. */
  function LatestClaim(s: seq<Claim>, missionId: string): (r: Option<Claim>)
    ensures r.Some? ==> r.value in s && r.value.missionId == missionId
    ensures r.None? ==> forall i | 0 <= i < |s| :: s[i].missionId != missionId
    decreases |s|
  {
    if |s| == 0 then None
    else if s[|s| - 1].missionId == missionId then Some(s[|s| - 1])
    else
      assert forall i | 0 <= i < |s| - 1 :: s[..|s| - 1][i] == s[i];
      LatestClaim(s[..|s| - 1], missionId)
  }

  /** The first claim of the mission, as the file adapter answers. */
  function FirstClaim(s: seq<Claim>, missionId: string): Option<Claim> {
    if |s| == 0 then None else if s[0].missionId == missionId then Some(s[0]) else FirstClaim(s[1..], missionId)
  }

  // ---------------------------------------------------------------- transitions

  function PutMission(s: MissionStore, m: Mission): MissionStore {
    s.(missions := s.missions[m.id := m])
  }

  function Touch(s: MissionStore, id: string, now: int): MissionStore {
    if id in s.missions then s.(missions := s.missions[id := s.missions[id].(updatedAt := now)]) else s
  }

  function MissionCreated(s: MissionStore, m: Mission): (MissionStore, Result<Mission>) {
    if m.id in s.missions then (s, Err(MISSION_EXISTS)) else (PutMission(s, m), Ok(m))
  }

  function MissionCancelled(s: MissionStore, id: string, signer: string, now: int): (MissionStore, Result<Mission>) {
    if id !in s.missions then (s, Err(MISSION_NOT_FOUND))
    else
      var m := s.missions[id];
      if !m.status.ACTIVE? then (s, Err(MISSION_NOT_ACTIVE))
      else if m.creator != signer && m.currentHolder != signer then (s, Err(NOT_MISSION_AUTHORITY))
      else if m.finalizedHopCount != 0 then (s, Err(MISSION_ALREADY_MOVED))
      else if OpenInvitation(s, id).Some? then (s, Err(OPEN_INVITATION))
      else
        var cancelled := m.(status := MissionStatus.CANCELLED, cancelledAt := Some(now), updatedAt := now);
        (s.(missions := s.missions[id := cancelled]), Ok(cancelled))
  }

  function ClaimCreated(s: MissionStore, c: Claim): (MissionStore, Result<Claim>) {
    if c.missionId !in s.missions then (s, Err(MISSION_NOT_FOUND))
    else
      var m := s.missions[c.missionId];
      if !m.status.ACTIVE? then (s, Err(MISSION_NOT_ACTIVE))
      else if m.targetHmac.Some? || m.targetCiphertext.Some? then (s, Err(TARGET_ALREADY_BOUND))
      else if exists i | 0 <= i < |s.claims| :: s.claims[i].missionId == c.missionId && s.claims[i].status.PENDING? then
        (s, Err(DESTINATION_CLAIM_ALREADY_OPEN))
      else if exists i | 0 <= i < |s.claims| :: s.claims[i].tokenHash == c.tokenHash then
        (s, Err(DESTINATION_CLAIM_TOKEN_COLLISION))
      else (Touch(s.(claims := s.claims + [c]), c.missionId, c.createdAt), Ok(c))
  }

  datatype Binding = Binding(claimId: string, missionId: string, wallet: string, ciphertext: string, hmac: string, at: int)

  function DestinationBound(s: MissionStore, b: Binding): (MissionStore, Result<Claim>) {
    var i := ClaimIndex(s.claims, b.claimId);
    if b.missionId !in s.missions then (s, Err(MISSION_NOT_FOUND))
    else if i == |s.claims| then (s, Err(DESTINATION_CLAIM_NOT_FOUND))
    else
      var m, c := s.missions[b.missionId], s.claims[i];
      if c.missionId != b.missionId then (s, Err(DESTINATION_CLAIM_MISSION_MISMATCH))
      else if c.status.CLAIMED? && c.claimedWallet == Some(b.wallet) then (s, Ok(c))
      else if !c.status.PENDING? then (s, Err(DESTINATION_CLAIM_CLOSED))
      else if b.at >= c.expiresAt then
        (Touch(s.(claims := s.claims[i := c.(status := ClaimStatus.EXPIRED, closedAt := Some(b.at))]), b.missionId, b.at),
         Err(DESTINATION_CLAIM_EXPIRED))
      else if !m.status.ACTIVE? then (s, Err(MISSION_NOT_ACTIVE))
      else if m.targetHmac.Some? || m.targetCiphertext.Some? then (s, Err(TARGET_ALREADY_BOUND))
      else if b.wallet == m.creator then (s, Err(TARGET_IS_CREATOR))
      else
        var claimed := c.(status := CLAIMED, claimedWallet := Some(b.wallet), claimedAt := Some(b.at), closedAt := Some(b.at));
        var bound := m.(targetCiphertext := Some(b.ciphertext), targetHmac := Some(b.hmac), targetConsent := true, updatedAt := b.at);
        (s.(missions := s.missions[b.missionId := bound], claims := s.claims[i := claimed]), Ok(claimed))
  }

  predicate IsDueClaim(c: Claim, now: int) {
    c.status.PENDING? && now >= c.expiresAt
  }

  predicate HasDueClaim(claims: seq<Claim>, id: string, now: int) {
    exists i | 0 <= i < |claims| :: claims[i].missionId == id && IsDueClaim(claims[i], now)
  }

  predicate IsRevocable(c: Claim, missionId: string) {
    c.missionId == missionId && c.status.PENDING?
  }

  function Revoked(c: Claim, missionId: string, now: int): Claim {
    if IsRevocable(c, missionId) then c.(status := REVOKED, closedAt := Some(now)) else c
  }

  /** The missions after the due ones among the claims were closed. */
  function TouchedByClaims(missions: map<string, Mission>, claims: seq<Claim>, now: int): map<string, Mission> {
    map id | id in missions :: if HasDueClaim(claims, id, now) then missions[id].(updatedAt := now) else missions[id]
  }

  function Lapsed(c: Claim, now: int): Claim {
    if IsDueClaim(c, now) then c.(status := ClaimStatus.EXPIRED, closedAt := Some(now)) else c
  }

  function ClaimsExpired(s: MissionStore, now: int): MissionStore {
    s.(claims := seq(|s.claims|, i requires 0 <= i < |s.claims| => Lapsed(s.claims[i], now)),
       missions := TouchedByClaims(s.missions, s.claims, now))
  }

  function ClaimsRevoked(s: MissionStore, missionId: string, now: int): MissionStore {
    var revoked := s.(claims := seq(|s.claims|, i requires 0 <= i < |s.claims| => Revoked(s.claims[i], missionId, now)));
    if exists i | 0 <= i < |s.claims| :: IsRevocable(s.claims[i], missionId) then Touch(revoked, missionId, now) else revoked
  }

  function InvitationCreated(s: MissionStore, v: Invitation): (MissionStore, Result<Invitation>) {
    if v.missionId !in s.missions then (s, Err(MISSION_NOT_FOUND))
    else
      var m := s.missions[v.missionId];
      if !m.status.ACTIVE? then (s, Err(MISSION_NOT_ACTIVE))
      else if v.inviter != m.currentHolder then (s, Err(WRONG_CURRENT_HOLDER))
      else if v.sequence != m.currentSequence + 1 then (s, Err(WRONG_SEQUENCE))
      else if OpenInvitation(s, v.missionId).Some? then (s, Err(OPEN_INVITATION_EXISTS))
      else if InvitationByToken(s, v.tokenHash).Some? then (s, Err(INVITE_TOKEN_COLLISION))
      else if v.candidate == Some(v.inviter) then (s, Err(SELF_PASS))
      else (Touch(s.(invitations := s.invitations + [v]), v.missionId, v.createdAt), Ok(v))
  }

  /** Does not look for another open invitation of the mission. */
  function InvitationReissued(s: MissionStore, id: string, tokenHash: string, candidate: Option<string>, now: int, expiresAt: int)
    : (MissionStore, Result<Invitation>)
  {
    var i := InvitationIndex(s.invitations, id);
    if i == |s.invitations| then (s, Err(INVITATION_NOT_FOUND))
    else
      var v := s.invitations[i];
      if !v.status.EXPIRED? then (s, Err(INVITATION_NOT_REISSUABLE))
      else if exists j | 0 <= j < |s.invitations| :: s.invitations[j].id != id && s.invitations[j].tokenHash == tokenHash then
        (s, Err(INVITE_TOKEN_COLLISION))
      else
        var again := v.(candidate := candidate, tokenHash := tokenHash, status := INVITED, createdAt := now, expiresAt := expiresAt,
                        acceptedAt := None, passDeadlineAt := None, completedAt := None, closedAt := None);
        (Touch(s.(invitations := s.invitations[i := again]), v.missionId, now), Ok(again))
  }

  function InvitationAccepted(s: MissionStore, id: string, wallet: string, now: int, deadline: int): (MissionStore, Result<Invitation>) {
    var i := InvitationIndex(s.invitations, id);
    if i == |s.invitations| then (s, Err(INVITATION_NOT_FOUND))
    else
      var v := s.invitations[i];
      if v.missionId !in s.missions then (s, Err(MISSION_NOT_FOUND))
      else if !s.missions[v.missionId].status.ACTIVE? then (s, Err(MISSION_NOT_ACTIVE))
      else if !v.status.INVITED? then (s, Err(INVITATION_NOT_INVITED))
      else if now >= v.expiresAt then
        (Touch(s.(invitations := s.invitations[i := v.(status := InvitationStatus.EXPIRED, closedAt := Some(now))]), v.missionId, now),
         Err(INVITATION_EXPIRED))
      else if wallet == v.inviter then (s, Err(SELF_PASS))
      else if v.candidate.Some? && v.candidate != Some("") && v.candidate != Some(wallet) then (s, Err(WRONG_INVITEE_WALLET))
      else
        var accepted := v.(candidate := Some(wallet), status := ACCEPTED, acceptedAt := Some(now), passDeadlineAt := Some(deadline));
        (Touch(s.(invitations := s.invitations[i := accepted]), v.missionId, now), Ok(accepted))
  }

  predicate IsDueInvitation(v: Invitation, now: int) {
    || (v.status.INVITED? && now >= v.expiresAt)
    || (v.status.ACCEPTED? && v.passDeadlineAt.Some? && now >= v.passDeadlineAt.value)
  }

  predicate HasDueInvitation(invitations: seq<Invitation>, id: string, now: int) {
    exists i | 0 <= i < |invitations| :: invitations[i].missionId == id && IsDueInvitation(invitations[i], now)
  }

  function InvitationClosed(s: MissionStore, id: string, status: InvitationStatus, now: int): (MissionStore, Result<Invitation>) {
    var i := InvitationIndex(s.invitations, id);
    if i == |s.invitations| then (s, Err(INVITATION_NOT_FOUND))
    else
      var v := s.invitations[i];
      if v.missionId !in s.missions then (s, Err(MISSION_NOT_FOUND))
      else if !IsOpen(v) then (s, Err(INVITATION_ALREADY_CLOSED))
      else if status.DECLINED? && !v.status.INVITED? then (s, Err(CANNOT_DECLINE_ACCEPTED))
      else if status.EXPIRED? && !IsDueInvitation(v, now) then (s, Err(INVITATION_NOT_DUE))
      else
        var closed := v.(status := status, closedAt := Some(now));
        (Touch(s.(invitations := s.invitations[i := closed]), v.missionId, now), Ok(closed))
  }

  function LapsedInvitation(v: Invitation, now: int): Invitation {
    if IsDueInvitation(v, now) then v.(status := InvitationStatus.EXPIRED, closedAt := Some(now)) else v
  }

  /** Also closes an ACCEPTED invitation whose payment may already be in flight. */
  function InvitationsExpired(s: MissionStore, now: int): MissionStore {
    s.(invitations := seq(|s.invitations|, i requires 0 <= i < |s.invitations| => LapsedInvitation(s.invitations[i], now)),
       missions := map id | id in s.missions ::
                     if HasDueInvitation(s.invitations, id, now)
                     then s.missions[id].(updatedAt := now) else s.missions[id])
  }

  function Arrive(m: Mission, sequence: int, wallet: string, now: int): Mission {
    m.(currentSequence := sequence, finalizedHopCount := m.finalizedHopCount + 1, currentHolder := wallet,
       status := ARRIVED, arrivedAt := Some(now), updatedAt := now)
  }

  function DirectHopCompleted(s: MissionStore, id: string, sequence: int, wallet: string, hmac: string, now: int)
    : (MissionStore, Result<()>)
  {
    if id !in s.missions then (s, Err(MISSION_NOT_FOUND))
    else
      var m := s.missions[id];
      if m.status.ARRIVED? && m.currentSequence >= sequence then (s, Ok(()))
      else if !m.status.ACTIVE? then (s, Err(MISSION_NOT_ACTIVE))
      else if m.targetHmac.None? || m.targetCiphertext.None? || !m.targetConsent then (s, Err(TARGET_NOT_BOUND))
      else if m.targetHmac != Some(hmac) then (s, Err(WRONG_FINAL_RECIPIENT))
      else if m.currentSequence + 1 != sequence then (s, Err(FINALIZATION_SEQUENCE_RACE))
      else (s.(missions := s.missions[id := Arrive(m, sequence, wallet, now)]), Ok(()))
  }

  function IntroducedHopCompleted(s: MissionStore, id: string, invitationId: string, sequence: int, wallet: string, hmac: string, now: int)
    : (MissionStore, Result<()>)
  {
    var i := InvitationIndex(s.invitations, invitationId);
    if id !in s.missions then (s, Err(MISSION_NOT_FOUND))
    else if i == |s.invitations| then (s, Err(INVITATION_NOT_FOUND))
    else
      var m, v := s.missions[id], s.invitations[i];
      if v.missionId != id || v.sequence != sequence then (s, Err(INVITATION_HOP_MISMATCH))
      else if v.status.COMPLETED? && m.currentSequence >= sequence then (s, Ok(()))
      else if !m.status.ACTIVE? then (s, Err(MISSION_NOT_ACTIVE))
      else if !v.status.ACCEPTED? then (s, Err(INVITATION_NOT_ACCEPTED))
      else if m.targetHmac != Some(hmac) then (s, Err(WRONG_FINAL_RECIPIENT))
      else if m.currentSequence + 1 != sequence then (s, Err(FINALIZATION_SEQUENCE_RACE))
      else
        (s.(missions := s.missions[id := Arrive(m, sequence, wallet, now)],
            invitations := s.invitations[i := v.(status := COMPLETED, completedAt := Some(now), closedAt := Some(now))]), Ok(()))
  }
}
