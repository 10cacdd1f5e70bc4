/** Exactly when each mission operation succeeds in a valid store, what it writes, and whom it leaves alone. */
module MissionEffects {
  import opened Domain
  import opened PaymentRails
  import opened Relay
  import opened RelayService
  import opened Missions
  import opened MissionService
  import opened MissionSafety
  import opened MissionOps

  /** The wallet signed this action for this mission. */
  predicate SignedBy(a: WalletAction, action: MissionAction, wallet: string, missionId: string) {
    a.action == action && a.wallet == wallet && a.missionId == Some(missionId)
  }

  predicate IsActiveIn(m: MissionStore, id: string) {
    id in m.missions && m.missions[id].status.ACTIVE?
  }

  /** The open intent of the mission has a hash in its slot. */
  predicate IsUnderWay(r: Relay, id: string) {
    && id in r.intents
    && var hop := GetHop(r.hops, id, r.intents[id].sequence);
       hop.Some? && hop.value.txHash.Some? && hop.value.txHash.value != ""
  }

  predicate HasOpenInvitation(m: MissionStore, id: string) {
    exists i :: 0 <= i < |m.invitations| && m.invitations[i].missionId == id && m.invitations[i].status in {INVITED, ACCEPTED}
  }

  // ---------------------------------------------------------------- a recorded payment stops the owner

  /**
   * Cancelling succeeds exactly for the creator's own signature on an ACTIVE mission with no open invitation and no recorded
   * payment; it closes the mission and revokes its pending links, and a refused one changes nothing.
   */
  lemma CancelExactly(m: MissionStore, r: Relay, id: string, auth: WalletAction, at: int, p: Protector)
    requires Inv(m, p)
    ensures var (t, res) := MissionCancelledBy(m, id, auth, HasRecordedBroadcast(r, id), at);
            if IsActiveIn(m, id) && SignedBy(auth, CANCEL_MISSION, m.missions[id].creator, id) && !HasOpenInvitation(m, id) && !IsUnderWay(r, id) then
              && res == Ok(m.missions[id].(status := MissionStatus.CANCELLED, cancelledAt := Some(at), updatedAt := at))
              && t.invitations == m.invitations && AreRevoked(m.claims, t.claims, id, at)
              && t.missions == m.missions[id := res.value]
            else t == m && res.Err?
  {
    if id in m.missions {
      assert MissionOk(id, m.missions[id], p);
      OpenIsFound(m, id);
    }
  }

  /** The pending claims of the mission are REVOKED, all others are as they were. */
  predicate AreRevoked(before: seq<Claim>, after: seq<Claim>, id: string, at: int) {
    && |after| == |before|
    && forall i | 0 <= i < |before| ::
         after[i] == if before[i].missionId == id && before[i].status.PENDING? then before[i].(status := REVOKED, closedAt := Some(at)) else before[i]
  }

  lemma OpenIsFound(m: MissionStore, id: string)
    ensures OpenInvitation(m, id).Some? <==> HasOpenInvitation(m, id)
  {
    if OpenInvitation(m, id).Some? {
      var i :| 0 <= i < |m.invitations| && m.invitations[i] == OpenInvitation(m, id).value;
    }
  }

  predicate IsIndexOf(m: MissionStore, id: string, i: nat) {
    i < |m.invitations| && m.invitations[i].id == id
  }

  lemma IndexIsUnique(m: MissionStore, id: string, i: nat, p: Protector)
    requires Inv(m, p) && IsIndexOf(m, id, i)
    ensures InvitationIndex(m.invitations, id) == i && FindInvitation(m.invitations, id) == Some(m.invitations[i])
    ensures m.invitations[i].missionId in m.missions && m.invitations[i].sequence == 1
  {
  }

  /** The record replaced in place, and the mission marked as changed. */
  function Moved(m: MissionStore, i: nat, v: Invitation, at: int): MissionStore
    requires i < |m.invitations| && v.missionId in m.missions
  {
    m.(invitations := m.invitations[i := v], missions := m.missions[v.missionId := m.missions[v.missionId].(updatedAt := at)])
  }

  /** Withdrawing succeeds exactly for the holder's signature naming an open invitation of a mission with no recorded payment. */
  lemma WithdrawExactly(m: MissionStore, r: Relay, id: string, auth: WalletAction, at: int, p: Protector, i: nat)
    requires Inv(m, p) && IsIndexOf(m, id, i)
    ensures var v := m.invitations[i];
            var (t, res) := InvitationWithdrawnBy(m, id, auth, HasRecordedBroadcast(r, v.missionId), at);
            if && SignedBy(auth, WITHDRAW_INVITATION, m.missions[v.missionId].currentHolder, v.missionId)
               && auth.invitationId == Some(id) && auth.sequence == Some(1) && v.status in {INVITED, ACCEPTED} && !IsUnderWay(r, v.missionId)
            then t == Moved(m, i, v.(status := WITHDRAWN, closedAt := Some(at)), at) && res == Ok(t.invitations[i])
            else t == m && res.Err?
  {
    IndexIsUnique(m, id, i, p);
  }

  /** A payment with a recorded hash stops its owner: neither the mission nor its introduction can be called back. */
  lemma RecordedPaymentStopsTheOwner(m: MissionStore, r: Relay, op: MissionOp, at: int, p: Protector, id: string)
    requires Inv(m, p) && IsUnderWay(r, id)
    requires op.CancelMission? ==> op.id == id
    requires op.Withdraw? ==> forall i | 0 <= i < |m.invitations| && m.invitations[i].id == op.id :: m.invitations[i].missionId == id
    requires op.CancelMission? || op.Withdraw?
    ensures ApplyOp(m, r, op, at, p) == m
  {
    if op.CancelMission? {
      CancelExactly(m, r, id, op.auth, at, p);
    } else if FindInvitation(m.invitations, op.id).Some? {
      WithdrawExactly(m, r, op.id, op.auth, at, p, InvitationIndex(m.invitations, op.id));
    }
  }

  // ---------------------------------------------------------------- invitations

  /** The first invitation with the token. */
  predicate IsFirstWith(m: MissionStore, token: string, i: nat) {
    i < |m.invitations| && m.invitations[i].tokenHash == token && forall j | 0 <= j < i :: m.invitations[j].tokenHash != token
  }

  lemma {:induction false} FirstIsFound(s: seq<Invitation>, wanted: Invitation -> bool, i: nat)
    requires i < |s| && wanted(s[i]) && forall j | 0 <= j < i :: !wanted(s[j])
    ensures FirstInvitation(s, wanted) == Some(s[i])
  {
    if i > 0 { FirstIsFound(s[1..], wanted, i - 1); }
  }

  /** Nobody on the delivered route may join it again. */
  predicate IsOffRoute(r: Relay, id: string, wallet: string) {
    forall i | 0 <= i < |r.hops| && r.hops[i].batonId == id && r.hops[i].status.FINAL? :: wallet !in {r.hops[i].currentHolder, r.hops[i].recipient}
  }

  /**
   * Accepting succeeds exactly with a signature naming the link's mission, invitation and sequence: again for the wallet that
   * has it, or in time, for an ACTIVE mission, by a wallet that is off the route, is not the inviter and is the one invited
   * if one was named. A late one only closes the invitation.
   */
  lemma AcceptExactly(m: MissionStore, r: Relay, token: string, auth: WalletAction, at: int, p: Protector, i: nat)
    requires Inv(m, p) && IsFirstWith(m, token, i)
    ensures var v := m.invitations[i];
            var (t, res) := InvitationAcceptedWith(m, token, auth, RouteHas(r, Some(v.missionId), Some(auth.wallet)), at);
            var named := auth.action == ACCEPT_INVITATION && auth.missionId == Some(v.missionId) && auth.invitationId == Some(v.id)
                         && auth.sequence == Some(1);
            if !named then t == m && res.Err?
            else if v.status.ACCEPTED? && v.candidate == Some(auth.wallet) then t == m && res == Ok(v)
            else if !IsOffRoute(r, v.missionId, auth.wallet) || !v.status.INVITED? || !m.missions[v.missionId].status.ACTIVE? then t == m && res.Err?
            else if v.expiresAt <= at then t == Moved(m, i, v.(status := InvitationStatus.EXPIRED, closedAt := Some(at)), at) && res == Err(INVITATION_EXPIRED)
            else if auth.wallet == v.inviter || (v.candidate.Some? && v.candidate.value != "" && v.candidate.value != auth.wallet) then t == m && res.Err?
            else
              && t == Moved(m, i, v.(candidate := Some(auth.wallet), status := ACCEPTED, acceptedAt := Some(at), passDeadlineAt := Some(at + 60 * 60_000)), at)
              && res == Ok(t.invitations[i])
  {
    var v := m.invitations[i];
    FirstIsFound(m.invitations, (w: Invitation) => w.tokenHash == token, i);
    IndexIsUnique(m, v.id, i, p);
    OnRouteExactly(r, v.missionId, auth.wallet);
  }

  lemma OnRouteExactly(r: Relay, id: string, wallet: string)
    ensures InFinalRoute(r, id, wallet) <==> !IsOffRoute(r, id, wallet)
  {
    if !IsOffRoute(r, id, wallet) {
      var i :| 0 <= i < |r.hops| && r.hops[i].batonId == id && r.hops[i].status.FINAL? && wallet in {r.hops[i].currentHolder, r.hops[i].recipient};
      assert OnFinalHop(r.hops[i], id, wallet);
    }
  }

  /** Declining needs the link only, and succeeds exactly while nobody has accepted or closed it. */
  lemma DeclineExactly(m: MissionStore, token: string, at: int, p: Protector, i: nat)
    requires Inv(m, p) && IsFirstWith(m, token, i)
    ensures var v := m.invitations[i];
            var (t, res) := InvitationDeclined(m, token, at);
            if v.status.INVITED? then t == Moved(m, i, v.(status := DECLINED, closedAt := Some(at)), at) && res == Ok(t.invitations[i])
            else t == m && res.Err?
  {
    FirstIsFound(m.invitations, (w: Invitation) => w.tokenHash == token, i);
    IndexIsUnique(m, m.invitations[i].id, i, p);
  }

  predicate IsNewToken(m: MissionStore, token: string, except: string) {
    forall i | 0 <= i < |m.invitations| && m.invitations[i].id != except :: m.invitations[i].tokenHash != token
  }

  /**
   * Inviting succeeds exactly for the holder's signature naming the next sequence of an ACTIVE mission with no open
   * invitation, under a new token, for anybody or for a wallet that is off the route and is not the holder.
   */
  lemma InviteExactly(m: MissionStore, r: Relay, missionId: string, auth: WalletAction, candidate: Option<string>, id: string, token: string,
                      at: int, p: Protector)
    requires Inv(m, p) && forall i | 0 <= i < |m.invitations| :: m.invitations[i].id != id
    ensures var (t, res) := InvitationOpenedBy(m, missionId, auth, candidate, id, token, RouteHas(r, Some(missionId), candidate), at);
            if && IsActiveIn(m, missionId) && SignedBy(auth, CREATE_INVITATION, m.missions[missionId].creator, missionId) && auth.sequence == Some(1)
               && !HasOpenInvitation(m, missionId) && IsNewToken(m, token, id) && candidate != Some(auth.wallet)
               && (candidate.Some? ==> IsOffRoute(r, missionId, candidate.value))
            then
              && res == Ok(Invitation(id, missionId, 1, auth.wallet, candidate, token, INVITED, at, at + 12 * 60 * 60_000, None, None, None, None))
              && t == m.(invitations := m.invitations + [res.value],
                         missions := m.missions[missionId := m.missions[missionId].(updatedAt := at)])
            else t == m && res.Err?
  {
    if missionId in m.missions { assert MissionOk(missionId, m.missions[missionId], p); }
    if candidate.Some? { OnRouteExactly(r, missionId, candidate.value); }
    OpenIsFound(m, missionId);
    TokenIsFound(m, token, id);
  }

  lemma TokenIsFound(m: MissionStore, token: string, id: string)
    requires forall i | 0 <= i < |m.invitations| :: m.invitations[i].id != id
    ensures InvitationByToken(m, token).None? <==> IsNewToken(m, token, id)
  {
    if InvitationByToken(m, token).Some? {
      var i :| 0 <= i < |m.invitations| && m.invitations[i] == InvitationByToken(m, token).value;
    }
  }

  /**
   * Reissuing succeeds exactly for the holder's signature naming an expired invitation of the ACTIVE mission, under a token no
   * other invitation has, for the recipient of a live intent if there is one; the record starts anew.
   */
  lemma InviteAgainExactly(m: MissionStore, r: Relay, missionId: string, id: string, auth: WalletAction, candidate: Option<string>, token: string,
                           at: int, p: Protector, i: nat)
    requires Inv(m, p) && IsIndexOf(m, id, i)
    ensures var v := m.invitations[i];
            var (t, res) := InvitationReopenedBy(m, missionId, id, auth, candidate, token, ActivePassOf(r, missionId), RouteHas(r, Some(missionId), candidate), at);
            if && IsActiveIn(m, missionId) && SignedBy(auth, CREATE_INVITATION, m.missions[missionId].creator, missionId) && auth.invitationId == Some(id)
               && auth.sequence == Some(1) && v.missionId == missionId && v.status.EXPIRED? && IsNewToken(m, token, id)
               && (missionId in r.intents ==> candidate == Some(r.intents[missionId].recipient))
               && (candidate.Some? ==> IsOffRoute(r, missionId, candidate.value))
            then
              && t == Moved(m, i, Invitation(id, missionId, 1, v.inviter, candidate, token, INVITED, at, at + 12 * 60 * 60_000, None, None, None, None), at)
              && res == Ok(t.invitations[i])
            else t == m && res.Err?
  {
    IndexIsUnique(m, id, i, p);
    if missionId in m.missions { assert MissionOk(missionId, m.missions[missionId], p); }
    if candidate.Some? { OnRouteExactly(r, missionId, candidate.value); }
  }

  // ---------------------------------------------------------------- destinations and missions

  predicate HasPendingClaim(m: MissionStore, id: string) {
    exists i :: 0 <= i < |m.claims| && m.claims[i].missionId == id && m.claims[i].status.PENDING?
  }

  predicate IsNewClaimToken(m: MissionStore, token: string) {
    forall i | 0 <= i < |m.claims| :: m.claims[i].tokenHash != token
  }

  function PendingClaim(id: string, missionId: string, token: string, at: int): Claim {
    Claim(id, missionId, token, ClaimStatus.PENDING, at, at + 24 * 60 * 60_000, None, None, None)
  }

  /** A destination link can be opened exactly by the creator of an ACTIVE, unbound mission with no pending link, under a new token. */
  lemma OpenClaimExactly(m: MissionStore, missionId: string, creator: string, id: string, token: string, at: int, p: Protector)
    requires Inv(m, p)
    ensures var (t, res) := ClaimOpened(m, missionId, creator, id, token, at);
            if && IsActiveIn(m, missionId) && m.missions[missionId].creator == creator && !IsBound(m.missions[missionId])
               && !HasPendingClaim(m, missionId) && IsNewClaimToken(m, token)
            then
              && res == Ok(PendingClaim(id, missionId, token, at))
              && t == m.(claims := m.claims + [res.value], missions := m.missions[missionId := m.missions[missionId].(updatedAt := at)])
            else t == m && res.Err?
  {
    if missionId in m.missions { assert MissionOk(missionId, m.missions[missionId], p); }
    LatestIsIn(m, missionId);
  }

  lemma LatestIsIn(m: MissionStore, id: string)
    ensures var c := LatestClaim(m.claims, id); c.Some? && c.value.status.PENDING? ==> HasPendingClaim(m, id)
  {
    var c := LatestClaim(m.claims, id);
    if c.Some? && c.value.status.PENDING? {
      var i :| 0 <= i < |m.claims| && m.claims[i] == c.value;
    }
  }

  /** The mission's pending link is revoked, the given links are added, and only that mission is marked as changed. */
  predicate IsRelinked(m: MissionStore, t: MissionStore, id: string, added: seq<Claim>, at: int) {
    && |t.claims| == |m.claims| + |added| && AreRevoked(m.claims, t.claims[..|m.claims|], id, at) && t.claims[|m.claims|..] == added
    && t.invitations == m.invitations && id in m.missions && t.missions.Keys == m.missions.Keys
    && (forall b | b in m.missions && b != id :: t.missions[b] == m.missions[b])
    && t.missions[id] in {m.missions[id], m.missions[id].(updatedAt := at)}
  }

  /**
   * Reissuing a destination link revokes the pending one and opens another, exactly for the creator's signature on an
   * ACTIVE, unbound mission under a new token; under a token in use the pending link is revoked all the same.
   */
  lemma ReissueClaimExactly(m: MissionStore, missionId: string, auth: WalletAction, id: string, token: string, at: int, p: Protector)
    requires Inv(m, p)
    ensures var (t, res) := ClaimReissuedBy(m, missionId, auth, id, token, at);
            if IsActiveIn(m, missionId) && SignedBy(auth, CREATE_DESTINATION_CLAIM, m.missions[missionId].creator, missionId) && !IsBound(m.missions[missionId])
            then
              && IsRelinked(m, t, missionId, if IsNewClaimToken(m, token) then [PendingClaim(id, missionId, token, at)] else [], at)
              && res == if IsNewClaimToken(m, token) then Ok(PendingClaim(id, missionId, token, at)) else Err(DESTINATION_CLAIM_TOKEN_COLLISION)
            else t == m && res.Err?
  {
    if missionId in m.missions {
      assert MissionOk(missionId, m.missions[missionId], p);
      ReissuingRevokesFirst(m, missionId, auth, id, token, at);
      if IsActiveIn(m, missionId) && m.missions[missionId].creator == auth.wallet && !IsBound(m.missions[missionId]) {
        RelinkedExactly(m, missionId, auth.wallet, id, token, at, p);
      }
    }
  }

  lemma RelinkedExactly(m: MissionStore, missionId: string, creator: string, id: string, token: string, at: int, p: Protector)
    requires Inv(m, p) && IsActiveIn(m, missionId) && m.missions[missionId].creator == creator && !IsBound(m.missions[missionId])
    ensures var (t, res) := ClaimOpened(ClaimsRevoked(m, missionId, at), missionId, creator, id, token, at);
            && IsRelinked(m, t, missionId, if IsNewClaimToken(m, token) then [PendingClaim(id, missionId, token, at)] else [], at)
            && res == if IsNewClaimToken(m, token) then Ok(PendingClaim(id, missionId, token, at)) else Err(DESTINATION_CLAIM_TOKEN_COLLISION)
  {
    RevokingExactly(m, missionId, at, p);
    OpenClaimExactly(ClaimsRevoked(m, missionId, at), missionId, creator, id, token, at, p);
    if !IsNewClaimToken(m, token) { TokenCollides(ClaimsRevoked(m, missionId, at), missionId, creator, id, token, at, p); }
  }

  lemma TokenCollides(m: MissionStore, missionId: string, creator: string, id: string, token: string, at: int, p: Protector)
    requires Inv(m, p) && IsActiveIn(m, missionId) && m.missions[missionId].creator == creator && !IsBound(m.missions[missionId])
    requires !HasPendingClaim(m, missionId) && !IsNewClaimToken(m, token)
    ensures ClaimOpened(m, missionId, creator, id, token, at) == (m, Err(DESTINATION_CLAIM_TOKEN_COLLISION))
  {
    assert MissionOk(missionId, m.missions[missionId], p);
    LatestIsIn(m, missionId);
  }

  lemma RevokingExactly(m: MissionStore, id: string, at: int, p: Protector)
    requires Inv(m, p) && id in m.missions
    ensures var u := ClaimsRevoked(m, id, at);
            && Inv(u, p) && AreRevoked(m.claims, u.claims, id, at) && u.invitations == m.invitations && !HasPendingClaim(u, id)
            && u.missions.Keys == m.missions.Keys && (forall b | b in m.missions && b != id :: u.missions[b] == m.missions[b])
            && u.missions[id] in {m.missions[id], m.missions[id].(updatedAt := at)}
            && forall token :: IsNewClaimToken(u, token) <==> IsNewClaimToken(m, token)
  {
    RevokedKeeps(m, id, at, p);
  }

  lemma ReissuingRevokesFirst(m: MissionStore, missionId: string, auth: WalletAction, id: string, token: string, at: int)
    requires missionId in m.missions
    ensures ClaimReissuedBy(m, missionId, auth, id, token, at)
         == if auth.action != CREATE_DESTINATION_CLAIM then (m, Err(WRONG_AUTH_ACTION))
            else if auth.missionId != Some(missionId) then (m, Err(AUTH_MISSION_MISMATCH))
            else if m.missions[missionId].creator != auth.wallet then (m, Err(NOT_MISSION_AUTHORITY))
            else if !m.missions[missionId].status.ACTIVE? then (m, Err(MISSION_NOT_ACTIVE))
            else if m.missions[missionId].targetHmac.Some? || m.missions[missionId].targetCiphertext.Some? then (m, Err(TARGET_ALREADY_BOUND))
            else ClaimOpened(ClaimsRevoked(m, missionId, at), missionId, auth.wallet, id, token, at)
  {
  }

  predicate IsFirstClaimWith(m: MissionStore, token: string, i: nat) {
    i < |m.claims| && m.claims[i].tokenHash == token && forall j | 0 <= j < i :: m.claims[j].tokenHash != token
  }

  lemma {:induction false} FirstClaimIsFound(s: seq<Claim>, token: string, i: nat)
    requires i < |s| && s[i].tokenHash == token && forall j | 0 <= j < i :: s[j].tokenHash != token
    ensures ClaimByToken(s, token) == Some(s[i])
  {
    if i > 0 { FirstClaimIsFound(s[1..], token, i - 1); }
  }

  lemma PendingIsUnbound(m: MissionStore, i: nat, p: Protector)
    requires Inv(m, p) && i < |m.claims|
    ensures m.claims[i].missionId in m.missions && ClaimIndex(m.claims, m.claims[i].id) == i
    ensures m.claims[i].status.PENDING? ==> !IsBound(m.missions[m.claims[i].missionId])
  {
    if m.claims[i].status.PENDING? { assert IsLatest(m.claims, i); }
  }

  /**
   * A destination is bound exactly with a signature naming the link's mission: again for the wallet that has it, or in time,
   * on an ACTIVE mission, by a wallet that is not its creator and is off the route. A late one closes every link that is due.
   */
  lemma ClaimDestinationExactly(m: MissionStore, r: Relay, token: string, auth: WalletAction, iv: string, at: int, p: Protector, i: nat)
    requires Inv(m, p) && IsFirstClaimWith(m, token, i)
    ensures var c := m.claims[i];
            var (t, res) := DestinationClaimedBy(m, token, auth, iv, RouteHas(r, Some(c.missionId), Some(auth.wallet)), at, p);
            if auth.action != CLAIM_DESTINATION || auth.missionId != Some(c.missionId) then t == m && res.Err?
            else if c.status.CLAIMED? then t == m && res == if c.claimedWallet == Some(auth.wallet) then Ok(c) else Err(DESTINATION_CLAIM_TAKEN)
            else if !c.status.PENDING? then t == m && res.Err?
            else if c.expiresAt <= at then t == ClaimsExpired(m, at) && res == Err(DESTINATION_CLAIM_EXPIRED)
            else if !m.missions[c.missionId].status.ACTIVE? || auth.wallet == m.missions[c.missionId].creator || !IsOffRoute(r, c.missionId, auth.wallet)
            then t == m && res.Err?
            else
              && t.invitations == m.invitations
              && t.claims == m.claims[i := c.(status := CLAIMED, claimedWallet := Some(auth.wallet), claimedAt := Some(at), closedAt := Some(at))]
              && t.missions == m.missions[c.missionId := m.missions[c.missionId].(
                   targetCiphertext := Some(p.encrypt(auth.wallet, iv)), targetHmac := Some(p.hmac(auth.wallet)), targetConsent := true, updatedAt := at)]
              && res == Ok(t.claims[i])
  {
    var c := m.claims[i];
    FirstClaimIsFound(m.claims, token, i);
    PendingIsUnbound(m, i, p);
    assert MissionOk(c.missionId, m.missions[c.missionId], p);
    OnRouteExactly(r, c.missionId, auth.wallet);
  }

  /** A mission is opened exactly under a new id, with a destination only if it consented and is not the creator. */
  lemma OpenMissionExactly(m: MissionStore, id: string, auth: WalletAction, target: Option<KnownTarget>, at: int, p: Protector)
    ensures var (t, res) := MissionOpenedBy(m, id, auth, target, at, p);
            if auth.action == CREATE_MISSION && id !in m.missions && (target.Some? ==> target.value.consent && target.value.wallet != auth.wallet) then
              && res == Ok(Mission(id, auth.wallet, auth.wallet,
                                   if target.Some? then Some(p.encrypt(target.value.wallet, target.value.iv)) else None,
                                   if target.Some? then Some(p.hmac(target.value.wallet)) else None, target.Some?, ACTIVE, 0, 0, at, None, None, at))
              && t == m.(missions := m.missions[id := res.value])
            else t == m && res.Err?
  {
  }

  // ---------------------------------------------------------------- expiry

  predicate IsLateClaim(c: Claim, at: int) {
    c.status.PENDING? && c.expiresAt <= at
  }

  /** An unanswered invitation ends with its link, an accepted one with its pass deadline. */
  predicate IsLateInvitation(v: Invitation, at: int) {
    (v.status.INVITED? && v.expiresAt <= at) || (v.status.ACCEPTED? && v.passDeadlineAt.Some? && v.passDeadlineAt.value <= at)
  }

  /** Claim expiry closes exactly the pending links whose time is over, of whatever mission, and marks those missions. */
  lemma ExpireClaimsExactly(m: MissionStore, at: int)
    ensures var t := ClaimsExpired(m, at);
            && t.invitations == m.invitations && |t.claims| == |m.claims| && t.missions.Keys == m.missions.Keys
            && (forall i | 0 <= i < |m.claims| ::
                  t.claims[i] == if IsLateClaim(m.claims[i], at) then m.claims[i].(status := ClaimStatus.EXPIRED, closedAt := Some(at)) else m.claims[i])
            && (forall b | b in m.missions ::
                  t.missions[b] == if exists i :: 0 <= i < |m.claims| && m.claims[i].missionId == b && IsLateClaim(m.claims[i], at)
                                   then m.missions[b].(updatedAt := at) else m.missions[b])
  {
    forall b | b in m.missions
      ensures HasDueClaim(m.claims, b, at) <==> exists i :: 0 <= i < |m.claims| && m.claims[i].missionId == b && IsLateClaim(m.claims[i], at)
    {
      if HasDueClaim(m.claims, b, at) {
        var i :| 0 <= i < |m.claims| && m.claims[i].missionId == b && IsDueClaim(m.claims[i], at);
        assert IsLateClaim(m.claims[i], at);
      }
    }
  }

  lemma ExpireInvitationsExactly(m: MissionStore, at: int)
    ensures var t := InvitationsExpired(m, at);
            && t.claims == m.claims && |t.invitations| == |m.invitations| && t.missions.Keys == m.missions.Keys
            && (forall i | 0 <= i < |m.invitations| ::
                  t.invitations[i] == if IsLateInvitation(m.invitations[i], at)
                                      then m.invitations[i].(status := InvitationStatus.EXPIRED, closedAt := Some(at)) else m.invitations[i])
            && (forall b | b in m.missions ::
                  t.missions[b] == if exists i :: 0 <= i < |m.invitations| && m.invitations[i].missionId == b && IsLateInvitation(m.invitations[i], at)
                                   then m.missions[b].(updatedAt := at) else m.missions[b])
  {
    forall b | b in m.missions
      ensures HasDueInvitation(m.invitations, b, at)
         <==> exists i :: 0 <= i < |m.invitations| && m.invitations[i].missionId == b && IsLateInvitation(m.invitations[i], at)
    {
      if HasDueInvitation(m.invitations, b, at) {
        var i :| 0 <= i < |m.invitations| && m.invitations[i].missionId == b && IsDueInvitation(m.invitations[i], at);
        assert IsLateInvitation(m.invitations[i], at);
      }
    }
  }

  // ---------------------------------------------------------------- one mission's operation is its own

  /** Every record of another mission is where and what it was; what is new belongs to the mission. */
  ghost predicate OthersKept(m: MissionStore, t: MissionStore, id: string) {
    && (forall b | b != id :: (b in t.missions <==> b in m.missions) && (b in m.missions ==> t.missions[b] == m.missions[b]))
    && |m.invitations| <= |t.invitations| && |m.claims| <= |t.claims|
    && (forall i | 0 <= i < |t.invitations| :: if i < |m.invitations| && m.invitations[i].missionId != id then t.invitations[i] == m.invitations[i]
                                               else t.invitations[i].missionId == id)
    && (forall i | 0 <= i < |t.claims| :: if i < |m.claims| && m.claims[i].missionId != id then t.claims[i] == m.claims[i]
                                          else t.claims[i].missionId == id)
  }

  /** The operation names the mission, or a link or record of it, or nothing that exists. */
  ghost predicate IsAbout(m: MissionStore, op: MissionOp, id: string) {
    match op
    case OpenMission(b, _, _) => b == id
    case OpenClaim(b, _, _, _) => b == id
    case ReissueClaim(b, _, _, _) => b == id
    case CancelMission(b, _) => b == id
    case Invite(b, _, _, _, _) => b == id
    case InviteAgain(b, _, _, _, _) => b == id
    case ClaimDestination(token, _, _) => forall i: nat | IsFirstClaimWith(m, token, i) :: m.claims[i].missionId == id
    case Accept(token, _) => forall i: nat | IsFirstWith(m, token, i) :: m.invitations[i].missionId == id
    case Decline(token) => forall i: nat | IsFirstWith(m, token, i) :: m.invitations[i].missionId == id
    case Withdraw(v, _) => forall i: nat | IsIndexOf(m, v, i) :: m.invitations[i].missionId == id
    case _ => false
  }

  lemma MovedKeepsOthers(m: MissionStore, i: nat, v: Invitation, at: int)
    requires i < |m.invitations| && v.missionId in m.missions && m.invitations[i].missionId == v.missionId
    ensures OthersKept(m, Moved(m, i, v, at), v.missionId)
  {
  }

  lemma {:induction false} FirstExists(s: seq<Invitation>, wanted: Invitation -> bool) returns (i: nat)
    requires FirstInvitation(s, wanted).Some?
    ensures i < |s| && wanted(s[i]) && forall j | 0 <= j < i :: !wanted(s[j])
  {
    i := 0;
    if !wanted(s[0]) {
      i := FirstExists(s[1..], wanted);
      i := i + 1;
      assert forall j | 0 < j < i :: s[j] == s[1..][j - 1];
    }
  }

  lemma {:induction false} FirstClaimExists(s: seq<Claim>, token: string) returns (i: nat)
    requires ClaimByToken(s, token).Some?
    ensures i < |s| && s[i].tokenHash == token && forall j | 0 <= j < i :: s[j].tokenHash != token
  {
    i := 0;
    if s[0].tokenHash != token {
      i := FirstClaimExists(s[1..], token);
      i := i + 1;
      assert forall j | 0 < j < i :: s[j] == s[1..][j - 1];
    }
  }

  lemma AcceptStaysHome(m: MissionStore, r: Relay, token: string, auth: WalletAction, at: int, p: Protector, i: nat)
    requires Inv(m, p) && IsFirstWith(m, token, i)
    ensures OthersKept(m, InvitationAcceptedWith(m, token, auth, RouteHas(r, Some(m.invitations[i].missionId), Some(auth.wallet)), at).0,
                       m.invitations[i].missionId)
  {
    AcceptExactly(m, r, token, auth, at, p, i);
  }

  lemma LinkOpStaysHome(m: MissionStore, r: Relay, op: MissionOp, at: int, p: Protector, id: string)
    requires Inv(m, p) && IsAbout(m, op, id) && (op.Accept? || op.Decline?) && InvitationByToken(m, op.token).Some?
    ensures OthersKept(m, ApplyOp(m, r, op, at, p), id)
  {
    var i := FirstExists(m.invitations, (w: Invitation) => w.tokenHash == op.token);
    FirstIsFound(m.invitations, (w: Invitation) => w.tokenHash == op.token, i);
    assert IsFirstWith(m, op.token, i);
    if op.Accept? { AcceptStaysHome(m, r, op.token, op.auth, at, p, i); } else { DeclineExactly(m, op.token, at, p, i); }
  }

  lemma WithdrawalStaysHome(m: MissionStore, r: Relay, id: string, auth: WalletAction, at: int, p: Protector, i: nat)
    requires Inv(m, p) && IsIndexOf(m, id, i)
    ensures OthersKept(m, InvitationWithdrawnBy(m, id, auth, HasRecordedBroadcast(r, m.invitations[i].missionId), at).0, m.invitations[i].missionId)
  {
    WithdrawExactly(m, r, id, auth, at, p, i);
  }

  lemma WithdrawStaysHome(m: MissionStore, r: Relay, op: MissionOp, at: int, p: Protector, id: string)
    requires Inv(m, p) && IsAbout(m, op, id) && op.Withdraw? && FindInvitation(m.invitations, op.id).Some?
    ensures OthersKept(m, ApplyOp(m, r, op, at, p), id)
  {
    var i := InvitationIndex(m.invitations, op.id);
    assert IsIndexOf(m, op.id, i);
    WithdrawalStaysHome(m, r, op.id, op.auth, at, p, i);
  }

  lemma InviteStaysHome(m: MissionStore, r: Relay, op: MissionOp, at: int, p: Protector)
    requires Inv(m, p) && IsLegal(m, op) && op.Invite?
    ensures OthersKept(m, ApplyOp(m, r, op, at, p), op.missionId)
  {
    InviteExactly(m, r, op.missionId, op.auth, op.candidate, op.id, op.token, at, p);
  }

  lemma InviteAgainStaysHome(m: MissionStore, r: Relay, op: MissionOp, at: int, p: Protector)
    requires Inv(m, p) && op.InviteAgain? && FindInvitation(m.invitations, op.id).Some?
    ensures OthersKept(m, ApplyOp(m, r, op, at, p), op.missionId)
  {
    InviteAgainExactly(m, r, op.missionId, op.id, op.auth, op.candidate, op.token, at, p, InvitationIndex(m.invitations, op.id));
  }

  lemma RelinkingStaysHome(m: MissionStore, r: Relay, op: MissionOp, at: int, p: Protector, id: string)
    requires Inv(m, p) && IsAbout(m, op, id) && (op.OpenClaim? || op.ReissueClaim?)
    ensures OthersKept(m, ApplyOp(m, r, op, at, p), id)
  {
    match op
    case OpenClaim(b, creator, v, token) => OpenClaimExactly(m, b, creator, v, token, at, p);
    case ReissueClaim(b, auth, v, token) => ReissueClaimExactly(m, b, auth, v, token, at, p);
  }

  lemma MissionOpStaysHome(m: MissionStore, r: Relay, op: MissionOp, at: int, p: Protector, id: string)
    requires Inv(m, p) && IsAbout(m, op, id) && (op.OpenMission? || op.CancelMission?)
    ensures OthersKept(m, ApplyOp(m, r, op, at, p), id)
  {
    match op
    case OpenMission(b, auth, target) => OpenMissionExactly(m, b, auth, target, at, p);
    case CancelMission(b, auth) => CancelExactly(m, r, b, auth, at, p);
  }

  /** A destination link used in time, or not a pending one. */
  ghost predicate IsInTime(m: MissionStore, op: MissionOp, at: int) {
    op.ClaimDestination? ==> forall i: nat | IsFirstClaimWith(m, op.token, i) :: !IsLateClaim(m.claims[i], at)
  }

  lemma ClaimingStaysHome(m: MissionStore, r: Relay, token: string, auth: WalletAction, iv: string, at: int, p: Protector, i: nat)
    requires Inv(m, p) && IsFirstClaimWith(m, token, i) && !IsLateClaim(m.claims[i], at)
    ensures OthersKept(m, DestinationClaimedBy(m, token, auth, iv, RouteHas(r, Some(m.claims[i].missionId), Some(auth.wallet)), at, p).0,
                       m.claims[i].missionId)
  {
    ClaimDestinationExactly(m, r, token, auth, iv, at, p, i);
  }

  lemma DestinationOpStaysHome(m: MissionStore, r: Relay, op: MissionOp, at: int, p: Protector, id: string)
    requires Inv(m, p) && IsAbout(m, op, id) && IsInTime(m, op, at) && op.ClaimDestination? && ClaimByToken(m.claims, op.token).Some?
    ensures OthersKept(m, ApplyOp(m, r, op, at, p), id)
  {
    var i := FirstClaimExists(m.claims, op.token);
    FirstClaimIsFound(m.claims, op.token, i);
    assert IsFirstClaimWith(m, op.token, i);
    ClaimingStaysHome(m, r, op.token, op.auth, op.iv, at, p, i);
  }

  /**
   * One mission's operation leaves every record of every other mission alone. The expiry sweeps are about all missions, and
   * so is a destination link used too late: it closes every due link.
   */
  lemma OpStaysHome(m: MissionStore, r: Relay, op: MissionOp, at: int, p: Protector, id: string)
    requires Inv(m, p) && IsLegal(m, op) && IsAbout(m, op, id) && IsInTime(m, op, at)
    ensures OthersKept(m, ApplyOp(m, r, op, at, p), id)
  {
    match op
    case OpenMission(_, _, _) => MissionOpStaysHome(m, r, op, at, p, id);
    case CancelMission(_, _) => MissionOpStaysHome(m, r, op, at, p, id);
    case Invite(_, _, _, _, _) => InviteStaysHome(m, r, op, at, p);
    case InviteAgain(_, v, _, _, _) => if FindInvitation(m.invitations, v).Some? { InviteAgainStaysHome(m, r, op, at, p); }
    case Accept(token, _) => if InvitationByToken(m, token).Some? { LinkOpStaysHome(m, r, op, at, p, id); }
    case Decline(token) => if InvitationByToken(m, token).Some? { LinkOpStaysHome(m, r, op, at, p, id); }
    case Withdraw(v, _) => if FindInvitation(m.invitations, v).Some? { WithdrawStaysHome(m, r, op, at, p, id); }
    case OpenClaim(_, _, _, _) => RelinkingStaysHome(m, r, op, at, p, id);
    case ReissueClaim(_, _, _, _) => RelinkingStaysHome(m, r, op, at, p, id);
    case ClaimDestination(token, _, _) => if ClaimByToken(m.claims, token).Some? { DestinationOpStaysHome(m, r, op, at, p, id); }
    case _ =>
  }
}
