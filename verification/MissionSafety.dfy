/** What every mission operation keeps: lifecycle shape, a destination bound once, and at most one live claim. */
module MissionSafety {
  import opened Domain
  import opened PaymentRails
  import opened Missions
  import opened MissionService

  predicate IsBound(m: Mission) {
    m.targetCiphertext.Some?
  }

  function Target(m: Mission, p: Protector): Option<string> {
    if m.targetCiphertext.Some? then p.decrypt(m.targetCiphertext.value) else None
  }

  /** ARRIVED exactly at sequence and hop count 1, held by the target; otherwise both 0 and held by the creator. */
  predicate MissionOk(id: string, m: Mission, p: Protector) {
    && m.id == id && IsNimiqAddress(m.creator)
    && (m.targetHmac.Some? <==> IsBound(m)) && (m.targetConsent <==> IsBound(m))
    && (IsBound(m) ==> Target(m, p).Some? && m.targetHmac == Some(p.hmac(Target(m, p).value)) && Target(m, p) != Some(m.creator))
    && if m.status.ARRIVED? then m.currentSequence == 1 && m.finalizedHopCount == 1 && IsBound(m) && Some(m.currentHolder) == Target(m, p)
       else m.currentSequence == 0 && m.finalizedHopCount == 0 && m.currentHolder == m.creator
  }

  predicate IsLiveClaim(c: Claim) {
    c.status.PENDING? || c.status.CLAIMED?
  }

  predicate IsLatest(claims: seq<Claim>, i: nat)
    requires i < |claims|
  {
    forall j | i < j < |claims| :: claims[j].missionId != claims[i].missionId
  }

  /** A claim that is followed by another of its mission is closed, so the only live claim is the latest one. */
  predicate ClaimsOk(s: MissionStore) {
    && (forall i | 0 <= i < |s.claims| :: s.claims[i].missionId in s.missions)
    && (forall i, j | 0 <= i < j < |s.claims| :: s.claims[i].id != s.claims[j].id)
    && (forall i | 0 <= i < |s.claims| && IsLiveClaim(s.claims[i]) :: IsLatest(s.claims, i))
    && (forall i | 0 <= i < |s.claims| && s.claims[i].status.CLAIMED? ::
          s.claims[i].claimedWallet.Some? && s.claims[i].claimedWallet.value != "" && IsBound(s.missions[s.claims[i].missionId]))
    && (forall i | 0 <= i < |s.claims| && IsBound(s.missions[s.claims[i].missionId]) && IsLatest(s.claims, i) ::
          s.claims[i].status.CLAIMED?)
  }

  /** An ACCEPTED invitation names its wallet, when it was accepted and until when the pass may be authorized. */
  predicate AcceptanceOk(v: Invitation) {
    v.status.ACCEPTED? ==> v.acceptedAt.Some? && v.passDeadlineAt.Some? && v.candidate.Some? && v.candidate.value != ""
  }

  predicate InvitationsOk(s: MissionStore) {
    && (forall i | 0 <= i < |s.invitations| ::
          s.invitations[i].id != "" && s.invitations[i].missionId in s.missions && s.invitations[i].sequence == 1
          && AcceptanceOk(s.invitations[i]))
    && (forall i, j | 0 <= i < j < |s.invitations| :: s.invitations[i].id != s.invitations[j].id)
  }

  predicate Inv(s: MissionStore, p: Protector) {
    && (forall id | id in s.missions :: MissionOk(id, s.missions[id], p))
    && ClaimsOk(s) && InvitationsOk(s)
  }

  /** What never changes again: creator; a bound destination; everything but updatedAt once ARRIVED or CANCELLED. */
  predicate MissionLater(m: Mission, n: Mission) {
    && n.creator == m.creator
    && (IsBound(m) ==> n.targetCiphertext == m.targetCiphertext && n.targetHmac == m.targetHmac && n.targetConsent == m.targetConsent)
    && (!m.status.ACTIVE? ==> n.(updatedAt := m.updatedAt) == m)
  }

  predicate InvitationLater(v: Invitation, w: Invitation) {
    w.id == v.id && w.missionId == v.missionId && w.sequence == v.sequence
  }

  /** Claims are only appended, never to a bound mission, and once closed or claimed they stay as they are. */
  predicate ClaimsLater(s: MissionStore, t: MissionStore) {
    && |s.claims| <= |t.claims|
    && (forall i | 0 <= i < |s.claims| ::
          t.claims[i].missionId == s.claims[i].missionId && (s.claims[i].status.PENDING? || t.claims[i] == s.claims[i]))
    && (forall i | |s.claims| <= i < |t.claims| :: t.claims[i].missionId in s.missions ==> !IsBound(s.missions[t.claims[i].missionId]))
  }

  predicate Later(s: MissionStore, t: MissionStore) {
    && ClaimsLater(s, t)
    && (forall id | id in s.missions :: id in t.missions && MissionLater(s.missions[id], t.missions[id]))
    && |s.invitations| <= |t.invitations|
    && (forall i | 0 <= i < |s.invitations| :: InvitationLater(s.invitations[i], t.invitations[i]))
  }

  predicate NoArrival(s: MissionStore, t: MissionStore) {
    forall id | id in t.missions && t.missions[id].status.ARRIVED? :: id in s.missions && s.missions[id].status.ARRIVED?
  }

  /** What every operation but a completed delivery does. */
  predicate Keeps(s: MissionStore, t: MissionStore, p: Protector) {
    Inv(t, p) && Later(s, t) && NoArrival(s, t)
  }

  lemma LaterIsTransitive(s: MissionStore, t: MissionStore, u: MissionStore)
    requires Later(s, t) && Later(t, u)
    ensures Later(s, u)
  {
    forall id | id in s.missions ensures id in u.missions && MissionLater(s.missions[id], u.missions[id]) {
      assert MissionLater(s.missions[id], t.missions[id]) && MissionLater(t.missions[id], u.missions[id]);
    }
    forall i | 0 <= i < |s.invitations| ensures InvitationLater(s.invitations[i], u.invitations[i]) {
      assert InvitationLater(s.invitations[i], t.invitations[i]) && InvitationLater(t.invitations[i], u.invitations[i]);
    }
    forall i | |s.claims| <= i < |u.claims| && u.claims[i].missionId in s.missions ensures !IsBound(s.missions[u.claims[i].missionId]) {
      var id := u.claims[i].missionId;
      assert MissionLater(s.missions[id], t.missions[id]);
      if i < |t.claims| { assert t.claims[i].missionId == id; }
    }
  }

  // ---------------------------------------------------------------- record-wise changes

  /** Same missions up to updatedAt. */
  predicate SameMissions(s: MissionStore, t: MissionStore) {
    t.missions.Keys == s.missions.Keys
    && forall id | id in s.missions :: t.missions[id].(updatedAt := s.missions[id].updatedAt) == s.missions[id]
  }

  /** Claim by claim, nothing or a pending claim closed unclaimed. */
  predicate ClaimsOnlyClose(s: MissionStore, t: MissionStore) {
    && |t.claims| == |s.claims|
    && forall i | 0 <= i < |s.claims| ::
         || t.claims[i] == s.claims[i]
         || (s.claims[i].status.PENDING? && !IsLiveClaim(t.claims[i]) && t.claims[i].id == s.claims[i].id
             && t.claims[i].missionId == s.claims[i].missionId)
  }

  predicate InvitationsOnlyMove(s: MissionStore, t: MissionStore) {
    |t.invitations| == |s.invitations|
    && forall i | 0 <= i < |s.invitations| ::
         InvitationLater(s.invitations[i], t.invitations[i]) && (AcceptanceOk(s.invitations[i]) ==> AcceptanceOk(t.invitations[i]))
  }

  lemma RecordWise(s: MissionStore, t: MissionStore, p: Protector)
    requires Inv(s, p) && SameMissions(s, t) && ClaimsOnlyClose(s, t) && InvitationsOnlyMove(s, t)
    ensures Keeps(s, t, p)
  {
    forall id | id in t.missions ensures MissionOk(id, t.missions[id], p) {
      assert MissionOk(id, s.missions[id], p);
    }
    forall i | 0 <= i < |s.claims| ensures IsLatest(t.claims, i) <==> IsLatest(s.claims, i) {
    }
    forall i | 0 <= i < |t.invitations|
      ensures t.invitations[i].id != "" && t.invitations[i].missionId in t.missions && t.invitations[i].sequence == 1
              && AcceptanceOk(t.invitations[i])
    {
      assert InvitationLater(s.invitations[i], t.invitations[i]);
    }
    forall i, j | 0 <= i < j < |t.invitations| ensures t.invitations[i].id != t.invitations[j].id {
      assert InvitationLater(s.invitations[i], t.invitations[i]) && InvitationLater(s.invitations[j], t.invitations[j]);
    }
  }

  /** One mission replaced by a valid later one; claims and invitations keep their identities. */
  lemma OneMission(s: MissionStore, t: MissionStore, id: string, p: Protector)
    requires Inv(s, p) && id in s.missions && t.claims == s.claims && InvitationsOnlyMove(s, t)
    requires t.missions.Keys == s.missions.Keys && forall other | other in s.missions && other != id :: t.missions[other] == s.missions[other]
    requires MissionOk(id, t.missions[id], p) && MissionLater(s.missions[id], t.missions[id]) && IsBound(t.missions[id]) == IsBound(s.missions[id])
    ensures Inv(t, p) && Later(s, t)
  {
    forall i | 0 <= i < |t.invitations|
      ensures t.invitations[i].id != "" && t.invitations[i].missionId in t.missions && t.invitations[i].sequence == 1
              && AcceptanceOk(t.invitations[i])
    {
      assert InvitationLater(s.invitations[i], t.invitations[i]);
    }
    forall i, j | 0 <= i < j < |t.invitations| ensures t.invitations[i].id != t.invitations[j].id {
      assert InvitationLater(s.invitations[i], t.invitations[i]) && InvitationLater(s.invitations[j], t.invitations[j]);
    }
  }

  lemma NothingKeeps(s: MissionStore, p: Protector)
    requires Inv(s, p)
    ensures Keeps(s, s, p)
  {
  }

  // ---------------------------------------------------------------- repository transitions

  lemma RevokedKeeps(s: MissionStore, id: string, now: int, p: Protector)
    requires Inv(s, p)
    ensures Keeps(s, ClaimsRevoked(s, id, now), p)
    ensures forall i | 0 <= i < |s.claims| && s.claims[i].missionId == id :: !ClaimsRevoked(s, id, now).claims[i].status.PENDING?
  {
    RecordWise(s, ClaimsRevoked(s, id, now), p);
  }

  lemma ClaimsExpiredKeeps(s: MissionStore, now: int, p: Protector)
    requires Inv(s, p)
    ensures Keeps(s, ClaimsExpired(s, now), p)
  {
    RecordWise(s, ClaimsExpired(s, now), p);
  }

  lemma InvitationsExpiredKeeps(s: MissionStore, now: int, p: Protector)
    requires Inv(s, p)
    ensures Keeps(s, InvitationsExpired(s, now), p)
  {
    RecordWise(s, InvitationsExpired(s, now), p);
  }

  lemma CreatedKeeps(s: MissionStore, id: string, creator: string, target: Option<KnownTarget>, now: int, p: Protector)
    requires Inv(s, p) && IsSound(p) && IsNimiqAddress(creator)
    ensures Keeps(s, MissionOpened(s, id, creator, target, now, p).0, p)
  {
    var t := MissionOpened(s, id, creator, target, now, p).0;
    if t != s {
      assert MissionOk(id, NewMission(id, creator, target, now, p), p);
    }
  }

  lemma ClaimCreatedKeeps(s: MissionStore, c: Claim, p: Protector)
    requires Inv(s, p) && c.status.PENDING? && forall i | 0 <= i < |s.claims| :: s.claims[i].id != c.id
    ensures Keeps(s, ClaimCreated(s, c).0, p)
  {
    var t := ClaimCreated(s, c).0;
    if t != s {
      assert MissionOk(c.missionId, s.missions[c.missionId], p);
      OneMoreClaim(s, t, c, p);
      forall id | id in t.missions ensures MissionOk(id, t.missions[id], p) && MissionLater(s.missions[id], t.missions[id]) {
        assert MissionOk(id, s.missions[id], p);
      }
    } else {
      NothingKeeps(s, p);
    }
  }

  /** A new PENDING claim of an unbound mission without one is its only live claim. */
  lemma OneMoreClaim(s: MissionStore, t: MissionStore, c: Claim, p: Protector)
    requires ClaimsOk(s) && c.status.PENDING? && c.missionId in s.missions && !IsBound(s.missions[c.missionId])
    requires forall i | 0 <= i < |s.claims| :: s.claims[i].id != c.id && !IsRevocable(s.claims[i], c.missionId)
    requires SameMissions(s, t) && t.claims == s.claims + [c]
    ensures ClaimsOk(t)
  {
    assert t.claims[|s.claims|] == c;
    assert forall j | 0 <= j < |s.claims| :: t.claims[j] == s.claims[j];
    forall i | 0 <= i < |s.claims| ensures IsLatest(t.claims, i) <==> IsLatest(s.claims, i) && s.claims[i].missionId != c.missionId {
    }
  }

  lemma ClaimLapsesKeeps(s: MissionStore, i: nat, now: int, p: Protector)
    requires Inv(s, p) && i < |s.claims| && s.claims[i].status.PENDING?
    ensures var lapsed := s.claims[i].(status := ClaimStatus.EXPIRED, closedAt := Some(now));
            Keeps(s, Touch(s.(claims := s.claims[i := lapsed]), s.claims[i].missionId, now), p)
  {
    var lapsed := s.claims[i].(status := ClaimStatus.EXPIRED, closedAt := Some(now));
    RecordWise(s, Touch(s.(claims := s.claims[i := lapsed]), s.claims[i].missionId, now), p);
  }

  lemma ClaimedIsLatest(s: MissionStore, t: MissionStore, i: nat, claimed: Claim)
    requires ClaimsOk(s) && i < |s.claims| && s.claims[i].status.PENDING? && t.claims == s.claims[i := claimed]
    requires claimed.id == s.claims[i].id && claimed.missionId == s.claims[i].missionId && claimed.status.CLAIMED?
    requires claimed.claimedWallet.Some? && claimed.claimedWallet.value != ""
    requires t.missions.Keys == s.missions.Keys && IsBound(t.missions[claimed.missionId])
    requires forall id | id in s.missions && id != claimed.missionId :: t.missions[id] == s.missions[id]
    ensures ClaimsOk(t)
  {
    assert IsLatest(s.claims, i);
    assert forall j | 0 <= j < |s.claims| :: t.claims[j].missionId == s.claims[j].missionId;
    forall j | 0 <= j < |s.claims| ensures IsLatest(t.claims, j) <==> IsLatest(s.claims, j) {
    }
    forall j | 0 <= j < |t.claims| && IsBound(t.missions[t.claims[j].missionId]) && IsLatest(t.claims, j)
      ensures t.claims[j].status.CLAIMED?
    {
      assert j < i ==> t.claims[j].missionId != t.claims[i].missionId;
    }
  }

  /** Claiming the pending, hence latest, claim of an unbound mission. */
  lemma ClaimBindsKeeps(s: MissionStore, i: nat, claimed: Claim, bound: Mission, p: Protector)
    requires Inv(s, p) && i < |s.claims| && s.claims[i].status.PENDING?
    requires claimed.id == s.claims[i].id && claimed.missionId == s.claims[i].missionId && claimed.status.CLAIMED?
    requires claimed.claimedWallet.Some? && claimed.claimedWallet.value != ""
    requires var m := s.missions[claimed.missionId]; m.status.ACTIVE? && !IsBound(m) && MissionLater(m, bound)
    requires MissionOk(claimed.missionId, bound, p) && IsBound(bound) && bound.status.ACTIVE?
    ensures Keeps(s, s.(missions := s.missions[claimed.missionId := bound], claims := s.claims[i := claimed]), p)
  {
    var t := s.(missions := s.missions[claimed.missionId := bound], claims := s.claims[i := claimed]);
    ClaimedIsLatest(s, t, i, claimed);
    forall id | id in s.missions ensures MissionLater(s.missions[id], t.missions[id]) {
    }
  }

  lemma BoundKeeps(s: MissionStore, b: Binding, p: Protector)
    requires Inv(s, p) && IsSound(p) && b.wallet != ""
    requires p.decrypt(b.ciphertext) == Some(b.wallet) && b.hmac == p.hmac(b.wallet)
    ensures Keeps(s, DestinationBound(s, b).0, p)
  {
    var (t, res) := DestinationBound(s, b);
    var i := ClaimIndex(s.claims, b.claimId);
    if t == s {
      NothingKeeps(s, p);
    } else if res.Err? {
      ClaimLapsesKeeps(s, i, b.at, p);
    } else {
      assert MissionOk(b.missionId, s.missions[b.missionId], p);
      ClaimBindsKeeps(s, i, t.claims[i], t.missions[b.missionId], p);
    }
  }

  lemma CancelledKeeps(s: MissionStore, id: string, signer: string, now: int, p: Protector)
    requires Inv(s, p)
    ensures Keeps(s, MissionCancelled(s, id, signer, now).0, p)
  {
    var t := MissionCancelled(s, id, signer, now).0;
    if t != s {
      assert MissionOk(id, s.missions[id], p);
      OneMission(s, t, id, p);
    }
  }

  /** Touching updatedAt keeps what is known of missions and their claims. */
  lemma TouchedMissionsKeep(s: MissionStore, t: MissionStore, p: Protector)
    requires Inv(s, p) && SameMissions(s, t) && t.claims == s.claims
    ensures ClaimsOk(t) && ClaimsLater(s, t) && NoArrival(s, t)
    ensures forall id | id in t.missions :: MissionOk(id, t.missions[id], p) && MissionLater(s.missions[id], t.missions[id])
  {
    forall id | id in t.missions ensures MissionOk(id, t.missions[id], p) && MissionLater(s.missions[id], t.missions[id]) {
      assert MissionOk(id, s.missions[id], p);
    }
  }

  lemma OneMoreInvitation(s: MissionStore, t: MissionStore, v: Invitation)
    requires InvitationsOk(s) && AcceptanceOk(v) && v.id != "" && v.missionId in s.missions && v.sequence == 1
    requires SameMissions(s, t) && t.invitations == s.invitations + [v]
    requires forall i | 0 <= i < |s.invitations| :: s.invitations[i].id != v.id
    ensures InvitationsOk(t)
  {
    assert forall j | 0 <= j < |s.invitations| :: t.invitations[j] == s.invitations[j];
  }

  lemma InvitationCreatedKeeps(s: MissionStore, v: Invitation, p: Protector)
    requires Inv(s, p) && AcceptanceOk(v) && v.id != "" && forall i | 0 <= i < |s.invitations| :: s.invitations[i].id != v.id
    ensures Keeps(s, InvitationCreated(s, v).0, p)
  {
    var t := InvitationCreated(s, v).0;
    if t == s {
      NothingKeeps(s, p);
    } else {
      assert MissionOk(v.missionId, s.missions[v.missionId], p);
      OneMoreInvitation(s, t, v);
      TouchedMissionsKeep(s, t, p);
    }
  }

  lemma InvitationMovesKeeps(s: MissionStore, i: nat, w: Invitation, now: int, p: Protector)
    requires Inv(s, p) && i < |s.invitations| && InvitationLater(s.invitations[i], w) && AcceptanceOk(w)
    ensures Keeps(s, Touch(s.(invitations := s.invitations[i := w]), w.missionId, now), p)
  {
    RecordWise(s, Touch(s.(invitations := s.invitations[i := w]), w.missionId, now), p);
  }

  /** Reissuing, accepting or closing an invitation replaces its record in place, at most. */
  ghost predicate MovesOneInvitation(s: MissionStore, t: MissionStore, now: int) {
    t == s || exists i: nat, w :: OneInvitationMoved(s, t, i, w, now)
  }

  ghost predicate OneInvitationMoved(s: MissionStore, t: MissionStore, i: nat, w: Invitation, now: int) {
    && i < |s.invitations| && InvitationLater(s.invitations[i], w) && AcceptanceOk(w)
    && t == Touch(s.(invitations := s.invitations[i := w]), w.missionId, now)
  }

  lemma OneInvitationKeeps(s: MissionStore, t: MissionStore, now: int, p: Protector)
    requires Inv(s, p) && MovesOneInvitation(s, t, now)
    ensures Keeps(s, t, p)
  {
    if t == s {
      NothingKeeps(s, p);
    } else {
      var i: nat, w :| OneInvitationMoved(s, t, i, w, now);
      InvitationMovesKeeps(s, i, w, now, p);
    }
  }

  lemma ReissuedKeeps(s: MissionStore, id: string, token: string, candidate: Option<string>, now: int, until: int, p: Protector)
    requires Inv(s, p)
    ensures Keeps(s, InvitationReissued(s, id, token, candidate, now, until).0, p)
  {
    var (t, res) := InvitationReissued(s, id, token, candidate, now, until);
    if res.Ok? { assert OneInvitationMoved(s, t, InvitationIndex(s.invitations, id), res.value, now); }
    OneInvitationKeeps(s, t, now, p);
  }

  lemma AcceptedKeeps(s: MissionStore, id: string, wallet: string, now: int, until: int, p: Protector)
    requires Inv(s, p) && wallet != ""
    ensures Keeps(s, InvitationAccepted(s, id, wallet, now, until).0, p)
  {
    var (t, res) := InvitationAccepted(s, id, wallet, now, until);
    var i := InvitationIndex(s.invitations, id);
    if res.Ok? { assert OneInvitationMoved(s, t, i, res.value, now); }
    if res == Err(INVITATION_EXPIRED) {
      assert OneInvitationMoved(s, t, i, s.invitations[i].(status := InvitationStatus.EXPIRED, closedAt := Some(now)), now);
    }
    OneInvitationKeeps(s, t, now, p);
  }

  lemma ClosedKeeps(s: MissionStore, id: string, status: InvitationStatus, now: int, p: Protector)
    requires Inv(s, p) && !status.ACCEPTED?
    ensures Keeps(s, InvitationClosed(s, id, status, now).0, p)
  {
    var (t, res) := InvitationClosed(s, id, status, now);
    if res.Ok? { assert OneInvitationMoved(s, t, InvitationIndex(s.invitations, id), res.value, now); }
    OneInvitationKeeps(s, t, now, p);
  }

  /** n is m after a repository completion at sequence 1 under the wallet's keyed hash. */
  predicate IsCompletion(m: MissionStore, n: MissionStore, id: string, v: string, wallet: string, now: int, p: Protector) {
    n == DirectHopCompleted(m, id, 1, wallet, p.hmac(wallet), now).0
    || n == IntroducedHopCompleted(m, id, v, 1, wallet, p.hmac(wallet), now).0
  }

  /** Completing a delivery needs the target's keyed hash, so the mission can only arrive at its destination. */
  lemma CompletionKeeps(m: MissionStore, n: MissionStore, id: string, v: string, wallet: string, now: int, p: Protector)
    requires Inv(m, p) && IsSound(p) && IsCompletion(m, n, id, v, wallet, now, p)
    ensures Inv(n, p) && Later(m, n)
    ensures n.missions.Keys == m.missions.Keys && forall other | other in m.missions && other != id :: n.missions[other] == m.missions[other]
    ensures n != m ==> id in m.missions && n.missions[id] == Arrive(m.missions[id], 1, wallet, now)
  {
    if n == m {
      NothingKeeps(m, p);
    } else {
      assert MissionOk(id, m.missions[id], p);
      OneMission(m, n, id, p);
    }
  }

  // ---------------------------------------------------------------- service operations

  lemma ClaimOpenedKeeps(s: MissionStore, missionId: string, creator: string, claimId: string, token: string, now: int, p: Protector)
    requires Inv(s, p) && forall i | 0 <= i < |s.claims| :: s.claims[i].id != claimId
    ensures Keeps(s, ClaimOpened(s, missionId, creator, claimId, token, now).0, p)
  {
    NothingKeeps(s, p);
    ClaimCreatedKeeps(s, Claim(claimId, missionId, token, ClaimStatus.PENDING, now, now + DESTINATION_CLAIM_TTL_MS, None, None, None), p);
  }

  lemma ClaimReissuedKeeps(s: MissionStore, missionId: string, creator: string, claimId: string, token: string, now: int, p: Protector)
    requires Inv(s, p) && forall i | 0 <= i < |s.claims| :: s.claims[i].id != claimId
    ensures Keeps(s, ClaimReissued(s, missionId, creator, claimId, token, now).0, p)
  {
    NothingKeeps(s, p);
    var r := ClaimsRevoked(s, missionId, now);
    RevokedKeeps(s, missionId, now, p);
    assert forall i | 0 <= i < |r.claims| :: r.claims[i].id == s.claims[i].id;
    ClaimOpenedKeeps(r, missionId, creator, claimId, token, now, p);
    LaterIsTransitive(s, r, ClaimOpened(r, missionId, creator, claimId, token, now).0);
  }

  /** What a claim attempt does to the store: nothing, the expiry of due claims, or a binding. */
  lemma DestinationClaimedShape(s: MissionStore, token: string, wallet: string, iv: string, route: bool, now: int, p: Protector)
    returns (b: Missions.Binding)
    ensures var t := DestinationClaimed(s, token, wallet, iv, route, now, p).0;
            t == s || t == ClaimsExpired(s, now) || t == DestinationBound(s, b).0
    ensures b.wallet == wallet && b.ciphertext == p.encrypt(wallet, iv) && b.hmac == p.hmac(wallet)
  {
    var found := ClaimByToken(s.claims, token);
    b := Missions.Binding("", "", wallet, p.encrypt(wallet, iv), p.hmac(wallet), now);
    if found.Some? && found.value.missionId in s.missions {
      b := b.(claimId := found.value.id, missionId := s.missions[found.value.missionId].id);
    }
  }

  lemma DestinationClaimedKeeps(s: MissionStore, token: string, wallet: string, iv: string, route: bool, now: int, p: Protector)
    requires Inv(s, p) && IsSound(p) && wallet != ""
    ensures Keeps(s, DestinationClaimed(s, token, wallet, iv, route, now, p).0, p)
  {
    var b := DestinationClaimedShape(s, token, wallet, iv, route, now, p);
    var t := DestinationClaimed(s, token, wallet, iv, route, now, p).0;
    if t == s {
      NothingKeeps(s, p);
    } else if t == ClaimsExpired(s, now) {
      ClaimsExpiredKeeps(s, now, p);
    } else {
      assert p.decrypt(p.encrypt(wallet, iv)) == Some(wallet);
      BoundKeeps(s, b, p);
    }
  }

  lemma CancelledByOwnerKeeps(s: MissionStore, id: string, signer: string, broadcast: bool, now: int, p: Protector)
    requires Inv(s, p)
    ensures Keeps(s, MissionCancelledByOwner(s, id, signer, broadcast, now).0, p)
  {
    CancelledKeeps(s, id, signer, now, p);
    var t := MissionCancelled(s, id, signer, now).0;
    RevokedKeeps(t, id, now, p);
    LaterIsTransitive(s, t, ClaimsRevoked(t, id, now));
  }

  lemma InvitationOpenedKeeps(s: MissionStore, missionId: string, signer: string, candidate: Option<string>, id: string, token: string,
                              route: bool, now: int, p: Protector)
    requires Inv(s, p) && id != "" && forall i | 0 <= i < |s.invitations| :: s.invitations[i].id != id
    ensures Keeps(s, InvitationOpened(s, missionId, signer, candidate, id, token, route, now).0, p)
  {
    NothingKeeps(s, p);
    if missionId in s.missions && signer == s.missions[missionId].currentHolder && !(candidate.Some? && route) {
      var m := s.missions[missionId];
      var v := Invitation(id, m.id, m.currentSequence + 1, signer, candidate, token, INVITED, now, now + INVITATION_TTL_MS,
                          None, None, None, None);
      InvitationCreatedKeeps(s, v, p);
      assert InvitationOpened(s, missionId, signer, candidate, id, token, route, now) == InvitationCreated(s, v);
    }
  }

  lemma InvitationReopenedKeeps(s: MissionStore, missionId: string, id: string, signer: string, candidate: Option<string>, token: string,
                                active: ActivePass, route: bool, now: int, p: Protector)
    requires Inv(s, p)
    ensures Keeps(s, InvitationReopened(s, missionId, id, signer, candidate, token, active, route, now).0, p)
  {
    NothingKeeps(s, p);
    ReissuedKeeps(s, id, token, candidate, now, now + INVITATION_TTL_MS, p);
  }

  lemma AcceptedByKeeps(s: MissionStore, token: string, wallet: string, route: bool, now: int, p: Protector)
    requires Inv(s, p) && wallet != ""
    ensures Keeps(s, InvitationAcceptedBy(s, token, wallet, route, now).0, p)
  {
    NothingKeeps(s, p);
    var found := InvitationByToken(s, token);
    if found.Some? { AcceptedKeeps(s, found.value.id, wallet, now, now + ACCEPTED_PASS_DEADLINE_MS, p); }
  }

  lemma DeclinedKeeps(s: MissionStore, token: string, now: int, p: Protector)
    requires Inv(s, p)
    ensures Keeps(s, InvitationDeclined(s, token, now).0, p)
  {
    NothingKeeps(s, p);
    var found := InvitationByToken(s, token);
    if found.Some? { ClosedKeeps(s, found.value.id, DECLINED, now, p); }
  }

  lemma WithdrawnKeeps(s: MissionStore, id: string, signer: string, broadcast: bool, now: int, p: Protector)
    requires Inv(s, p)
    ensures Keeps(s, InvitationWithdrawn(s, id, signer, broadcast, now).0, p)
  {
    NothingKeeps(s, p);
    ClosedKeeps(s, id, WITHDRAWN, now, p);
  }
}
