/** What a wallet signed and what it opens: an authorization acts on exactly the delivery its signature names. */
module Signatures {
  import opened Domain
  import opened PaymentRails
  import opened Relay
  import opened RelayService
  import opened RelaySafety
  import opened Missions
  import opened MissionService
  import MissionSafety
  import opened Coordinator
  import opened System
  import opened Delivery
  import HopCommitment
  import Policy

  /** The signature is an authorization to pay, and names this mission, this sequence and this invitation or none. */
  predicate SignedFor(a: WalletAction, id: string, sequence: int, invitationId: Option<string>) {
    a.action == AUTHORIZE_PASS && a.missionId == Some(id) && a.sequence == Some(sequence) && a.invitationId == invitationId
  }

  /** The invitation a request asks to bind: an empty one counts as none. */
  function Bound(q: AuthorizeRequest): Option<string> {
    if q.invitationId == Some("") then None else q.invitationId
  }

  /** The request is signed by the holder of its mission, for the next delivery of that mission along its invitation. */
  predicate IsOwnRequest(m: MissionStore, q: AuthorizeRequest) {
    && q.missionId in m.missions && q.auth.wallet == m.missions[q.missionId].currentHolder
    && SignedFor(q.auth, q.missionId, m.missions[q.missionId].currentSequence + 1, Bound(q))
  }

  /**
   * An authorization whose signature names any other action, mission, sequence or invitation, or comes from any wallet but
   * the holder's, is refused and changes nothing.
   */
  lemma ForeignSignaturesChangeNothing(m: MissionStore, s: Store, q: AuthorizeRequest, nonce: string, created: int, c: Crypto, flushed: bool)
    requires MissionSafety.Inv(m, c.protector) && !IsOwnRequest(m, q)
    ensures var (t, res) := Authorized(m, s, q, nonce, created, c.sha, c.protector, flushed); t == s && res.Err?
  {
    if q.missionId in m.missions {
      assert MissionSafety.MissionOk(q.missionId, m.missions[q.missionId], c.protector);
      ForeignIsUnchecked(m, s.relay, q);
    }
  }

  lemma ForeignIsUnchecked(m: MissionStore, r: Relay, q: AuthorizeRequest)
    requires q.missionId in m.missions && m.missions[q.missionId].id == q.missionId && !IsOwnRequest(m, q)
    ensures PassChecked(m, r, q).Err?
  {
  }

  /** What the guards let through is signed for what it will open. */
  lemma CheckedIsSigned(m: MissionStore, r: Relay, q: AuthorizeRequest)
    requires PassChecked(m, r, q).Ok? && m.missions[q.missionId].id == q.missionId
    ensures IsOwnRequest(m, q) && PassChecked(m, r, q).value == Bound(q)
  {
  }

  // ---------------------------------------------------------------- exactly when an authorization succeeds

  /** The invitation is this mission's, for its delivery, accepted and within its pass deadline. */
  predicate IsPassable(v: Invitation, id: string, now: int) {
    v.missionId == id && v.sequence == 1 && v.status.ACCEPTED? && v.passDeadlineAt.Some? && now < v.passDeadlineAt.value
  }

  predicate IsPassableIn(m: MissionStore, q: AuthorizeRequest) {
    Bound(q).Some? ==> exists i :: 0 <= i < |m.invitations| && m.invitations[i].id == Bound(q).value && IsPassable(m.invitations[i], q.missionId, q.now)
  }

  /** A live intent is only handed out again, and an expired one only replaced, for the same invitation and an unused slot. */
  predicate LeavesRoom(r: Relay, q: AuthorizeRequest) {
    q.missionId in r.intents ==>
      && r.intents[q.missionId].invitationId == Bound(q)
      && (q.now - r.intents[q.missionId].createdAt <= Policy.INTENT_VALIDITY_WINDOW_MS
          || GetHop(r.hops, q.missionId, 1).None? || GetHop(r.hops, q.missionId, 1).value.txHash.None?)
  }

  ghost predicate IsAuthorizable(m: MissionStore, r: Relay, q: AuthorizeRequest) {
    && IsOwnRequest(m, q) && m.missions[q.missionId].status.ACTIVE? && MissionSafety.IsBound(m.missions[q.missionId])
    && IsPassableIn(m, q) && !IsFinal(r.hops, q.missionId, 1) && LeavesRoom(r, q)
  }

  lemma FoundByItsId(m: MissionStore, id: string, p: Protector)
    requires MissionSafety.Inv(m, p)
    ensures FindInvitation(m.invitations, id).Some? ==>
              exists i :: 0 <= i < |m.invitations| && m.invitations[i].id == id && m.invitations[i] == FindInvitation(m.invitations, id).value
    ensures forall i | 0 <= i < |m.invitations| && m.invitations[i].id == id :: FindInvitation(m.invitations, id) == Some(m.invitations[i])
  {
    var j := InvitationIndex(m.invitations, id);
    if j < |m.invitations| { assert m.invitations[j].id == id; }
  }

  lemma NobodyArrived(m: MissionStore, r: Relay, id: string, p: Protector)
    requires Good(r, m, p) && !IsFinal(r.hops, id, 1)
    ensures forall wallet :: !InFinalRoute(r, id, wallet)
  {
    forall i | 0 <= i < |r.hops| && r.hops[i].batonId == id ensures !r.hops[i].status.FINAL? {
      assert GetHop(r.hops, id, r.hops[i].sequence) == Some(r.hops[i]);
      assert HopLinked(r.hops[i], m, p);
    }
  }

  lemma IntroductionPassesExactlyWhen(m: MissionStore, r: Relay, q: AuthorizeRequest, mission: Mission, p: Protector)
    requires MissionSafety.Inv(m, p) && mission.currentSequence == 0 && Bound(q).Some? && (forall wallet :: !InFinalRoute(r, mission.id, wallet))
    requires mission.id == q.missionId
    ensures IntroductionChecked(m, r, q, mission).Ok?
       <==> q.auth.missionId == Some(q.missionId) && q.auth.sequence == Some(1) && q.auth.invitationId == Bound(q) && IsPassableIn(m, q)
    ensures IntroductionChecked(m, r, q, mission).Ok? ==> IntroductionChecked(m, r, q, mission).value == Bound(q)
  {
    FoundByItsId(m, Bound(q).value, p);
  }

  lemma DirectPassesExactlyWhen(m: MissionStore, r: Relay, q: AuthorizeRequest, p: Protector)
    requires q.missionId in m.missions && MissionSafety.MissionOk(q.missionId, m.missions[q.missionId], p) && Bound(q).None?
    requires MissionSafety.IsBound(m.missions[q.missionId]) ==> !IsUnclaimed(LatestClaim(m.claims, q.missionId))
    ensures PassChecked(m, r, q).Ok?
       <==> IsOwnRequest(m, q) && m.missions[q.missionId].status.ACTIVE? && MissionSafety.IsBound(m.missions[q.missionId])
    ensures PassChecked(m, r, q).Ok? ==> PassChecked(m, r, q).value == None
  {
  }

  lemma IntroducedPassesExactlyWhen(m: MissionStore, r: Relay, q: AuthorizeRequest, p: Protector)
    requires q.missionId in m.missions && MissionSafety.MissionOk(q.missionId, m.missions[q.missionId], p) && Bound(q).Some?
    ensures PassChecked(m, r, q).Ok?
       <==> && q.auth.wallet == m.missions[q.missionId].currentHolder && q.auth.action == AUTHORIZE_PASS
            && m.missions[q.missionId].status.ACTIVE? && MissionSafety.IsBound(m.missions[q.missionId])
            && IntroductionChecked(m, r, q, m.missions[q.missionId]).Ok?
    ensures PassChecked(m, r, q).Ok? ==> PassChecked(m, r, q) == IntroductionChecked(m, r, q, m.missions[q.missionId])
  {
  }

  lemma GuardsPassOffRoute(m: MissionStore, r: Relay, q: AuthorizeRequest, p: Protector)
    requires MissionSafety.Inv(m, p) && q.missionId in m.missions && forall wallet :: !InFinalRoute(r, q.missionId, wallet)
    ensures PassChecked(m, r, q).Ok?
       <==> IsOwnRequest(m, q) && m.missions[q.missionId].status.ACTIVE? && MissionSafety.IsBound(m.missions[q.missionId]) && IsPassableIn(m, q)
    ensures PassChecked(m, r, q).Ok? ==> PassChecked(m, r, q).value == Bound(q)
  {
    var mission := m.missions[q.missionId];
    assert MissionSafety.MissionOk(q.missionId, mission, p);
    if Bound(q).None? {
      if MissionSafety.IsBound(mission) { BoundMeansClaimed(m, q.missionId, p); }
      DirectPassesExactlyWhen(m, r, q, p);
    } else {
      IntroducedPassesExactlyWhen(m, r, q, p);
      if mission.status.ACTIVE? { IntroductionPassesExactlyWhen(m, r, q, mission, p); }
    }
  }

  /** The coordinator's guards let through exactly the holder's own request along a passable invitation. */
  lemma GuardsPassExactlyWhen(m: MissionStore, r: Relay, q: AuthorizeRequest, p: Protector)
    requires MissionSafety.Inv(m, p) && Good(r, m, p) && !IsFinal(r.hops, q.missionId, 1)
    ensures PassChecked(m, r, q).Ok?
       <==> IsOwnRequest(m, q) && m.missions[q.missionId].status.ACTIVE? && MissionSafety.IsBound(m.missions[q.missionId]) && IsPassableIn(m, q)
    ensures PassChecked(m, r, q).Ok? ==> PassChecked(m, r, q).value == Bound(q)
  {
    NobodyArrived(m, r, q.missionId, p);
    if q.missionId in m.missions { GuardsPassOffRoute(m, r, q, p); }
  }

  // ---------------------------------------------------------------- what it opens

  /** The intent pays this delivery and nothing else, and commits to every field of it. */
  predicate IsIntentFor(i: PassIntent, q: AuthorizeRequest, target: string, nonce: string, created: int, sha: HopCommitment.Digest) {
    && i.batonId == q.missionId && i.sequence == 1 && i.invitationId == Bound(q) && i.currentHolder == q.auth.wallet
    && i.recipient == target && i.nonce == nonce && i.createdAt == created
    && i.authorizedPaymentWallets == DistinctWallets([q.auth.wallet] + q.wallets, {})
    && i.recipientData == Some(HopCommitment.OpaqueHopCommitment(
         HopCommitment.HopFields(q.missionId, 1, q.auth.wallet, target, nonce, i.authorizedPaymentWallets), sha))
  }

  /** Only that mission's intent and recorded holder differ. */
  predicate Opened(r: Relay, t: Relay, i: PassIntent) {
    t == r.(intents := r.intents[i.batonId := i], holders := r.holders[i.batonId := i.currentHolder])
  }

  predicate IsLive(r: Relay, q: AuthorizeRequest) {
    q.missionId in r.intents && q.now - r.intents[q.missionId].createdAt <= Policy.INTENT_VALIDITY_WINDOW_MS
  }

  /** Past the guards, an expired unpaid intent of the same delivery is cleared and a new one issued. */
  lemma CheckedPassIssues(m: MissionStore, s: Store, q: AuthorizeRequest, nonce: string, created: int, c: Crypto, flushed: bool, target: string)
    requires PassChecked(m, s.relay, q) == Ok(Bound(q)) && q.missionId in m.missions && m.missions[q.missionId].id == q.missionId
    requires m.missions[q.missionId].targetCiphertext.Some? && c.protector.decrypt(m.missions[q.missionId].targetCiphertext.value) == Some(target)
    requires q.missionId in s.relay.intents ==>
               var i := s.relay.intents[q.missionId];
               && IsSameDelivery(i, m.missions[q.missionId].currentSequence + 1, q.auth.wallet, target, Bound(q)) && IsStale(i, q.now)
               && (GetHop(s.relay.hops, q.missionId, i.sequence).Some? ==> GetHop(s.relay.hops, q.missionId, i.sequence).value.txHash.None?)
    ensures Authorized(m, s, q, nonce, created, c.sha, c.protector, flushed)
         == Issued(Cancelled(s, q.missionId), RequestFor(q, target, Bound(q)), nonce, created, c.sha, flushed)
  {
    if q.missionId in s.relay.intents { assert CancelledPass(s, q.missionId) == (Cancelled(s, q.missionId), Ok(())); }
  }

  lemma IssuedOpens(s: Store, q: AuthorizeRequest, target: string, nonce: string, created: int, sha: HopCommitment.Digest, flushed: bool)
    requires CurrentSequence(s.relay.hops, q.missionId) == 0 && q.auth.wallet != target
    requires q.missionId in s.relay.holders ==> s.relay.holders[q.missionId] == q.auth.wallet
    ensures var (t, res) := Issued(Cancelled(s, q.missionId), RequestFor(q, target, Bound(q)), nonce, created, sha, flushed);
            && q.missionId in t.relay.intents && IsIntentFor(t.relay.intents[q.missionId], q, target, nonce, created, sha)
            && Opened(s.relay, t.relay, t.relay.intents[q.missionId])
            && res == if flushed then Ok(t.relay.intents[q.missionId]) else Err(PERSISTENCE_FAILED)
  {
    var u, request := Cancelled(s, q.missionId), RequestFor(q, target, Bound(q));
    var i := NewIntent(u.relay, request, nonce, created, sha);
    assert u.relay.hops == s.relay.hops && u.relay.holders == s.relay.holders && q.missionId !in u.relay.intents;
    assert Created(u, request, nonce, created, sha).1 == Ok(i);
    assert Created(u, request, nonce, created, sha).0.relay.intents == s.relay.intents[q.missionId := i];
  }

  /** What an ACTIVE mission and its relay state look like before the delivery. */
  lemma BeforeTheDelivery(m: MissionStore, r: Relay, b: string, p: Protector)
    requires MissionSafety.Inv(m, p) && Good(r, m, p) && !IsFinal(r.hops, b, 1)
    requires b in m.missions && m.missions[b].status.ACTIVE? && MissionSafety.IsBound(m.missions[b])
    ensures var mission, target := m.missions[b], MissionSafety.Target(m.missions[b], p);
            && mission.id == b && mission.currentSequence == 0 && target.Some? && target.value != mission.currentHolder
            && CurrentSequence(r.hops, b) == 0 && (b in r.holders ==> r.holders[b] == mission.currentHolder)
            && (b in r.intents ==> IsSameDelivery(r.intents[b], 1, mission.currentHolder, target.value, r.intents[b].invitationId))
            && (GetHop(r.hops, b, 1).Some? ==> GetHop(r.hops, b, 1).value.txHash != Some(""))
  {
    assert MissionSafety.MissionOk(b, m.missions[b], p);
    FinalClosesTheMission(r, m, b, p);
    if b in r.holders { assert HolderLinked(b, r, m); }
    if b in r.intents { assert IntentLinked(b, r.intents[b], m, p); }
    if GetHop(r.hops, b, 1).Some? { assert HopLinked(GetHop(r.hops, b, 1).value, m, p); }
  }

  /** An authorizable request with no live intent opens one, whether or not the flush then returns. */
  lemma AuthorizableOpens(m: MissionStore, s: Store, q: AuthorizeRequest, nonce: string, created: int, c: Crypto, flushed: bool)
    requires MissionSafety.Inv(m, c.protector) && Good(s.relay, m, c.protector) && IsAuthorizable(m, s.relay, q) && !IsLive(s.relay, q)
    ensures var (t, res) := Authorized(m, s, q, nonce, created, c.sha, c.protector, flushed);
            var target := MissionSafety.Target(m.missions[q.missionId], c.protector);
            && target.Some? && q.missionId in t.relay.intents
            && IsIntentFor(t.relay.intents[q.missionId], q, target.value, nonce, created, c.sha)
            && Opened(s.relay, t.relay, t.relay.intents[q.missionId])
            && res == if flushed then Ok(t.relay.intents[q.missionId]) else Err(PERSISTENCE_FAILED)
  {
    var target := MissionSafety.Target(m.missions[q.missionId], c.protector).value;
    BeforeTheDelivery(m, s.relay, q.missionId, c.protector);
    GuardsPassExactlyWhen(m, s.relay, q, c.protector);
    CheckedPassIssues(m, s, q, nonce, created, c, flushed, target);
    IssuedOpens(s, q, target, nonce, created, c.sha, flushed);
  }

  lemma LiveIsHandedOut(m: MissionStore, s: Store, q: AuthorizeRequest, nonce: string, created: int, c: Crypto, flushed: bool, target: string)
    requires PassChecked(m, s.relay, q) == Ok(Bound(q)) && q.missionId in m.missions && m.missions[q.missionId].id == q.missionId
    requires m.missions[q.missionId].targetCiphertext.Some? && c.protector.decrypt(m.missions[q.missionId].targetCiphertext.value) == Some(target)
    requires q.missionId in s.relay.intents && !IsStale(s.relay.intents[q.missionId], q.now)
    requires IsSameDelivery(s.relay.intents[q.missionId], m.missions[q.missionId].currentSequence + 1, q.auth.wallet, target, Bound(q))
    ensures Authorized(m, s, q, nonce, created, c.sha, c.protector, flushed)
         == (s, if flushed then Ok(s.relay.intents[q.missionId]) else Err(PERSISTENCE_FAILED))
  {
  }

  /** A live intent of the same delivery is handed out again, and nothing changes. */
  lemma AuthorizableLiveIsHandedOut(m: MissionStore, s: Store, q: AuthorizeRequest, nonce: string, created: int, c: Crypto, flushed: bool)
    requires MissionSafety.Inv(m, c.protector) && Good(s.relay, m, c.protector) && IsAuthorizable(m, s.relay, q) && IsLive(s.relay, q)
    ensures Authorized(m, s, q, nonce, created, c.sha, c.protector, flushed)
         == (s, if flushed then Ok(s.relay.intents[q.missionId]) else Err(PERSISTENCE_FAILED))
  {
    BeforeTheDelivery(m, s.relay, q.missionId, c.protector);
    GuardsPassExactlyWhen(m, s.relay, q, c.protector);
    LiveIsHandedOut(m, s, q, nonce, created, c, flushed, MissionSafety.Target(m.missions[q.missionId], c.protector).value);
  }

  /** Any other request is refused and changes nothing. */
  lemma OthersAreRefused(m: MissionStore, s: Store, q: AuthorizeRequest, nonce: string, created: int, c: Crypto, flushed: bool)
    requires MissionSafety.Inv(m, c.protector) && Good(s.relay, m, c.protector) && !IsAuthorizable(m, s.relay, q)
    ensures var (t, res) := Authorized(m, s, q, nonce, created, c.sha, c.protector, flushed); t == s && res.Err?
  {
    if PassChecked(m, s.relay, q).Ok? {
      if IsFinal(s.relay.hops, q.missionId, 1) {
        DeliveredIsRefused(m, s, q, nonce, created, c, flushed);
      } else {
        GuardsPassExactlyWhen(m, s.relay, q, c.protector);
        BeforeTheDelivery(m, s.relay, q.missionId, c.protector);
        TakenIsRefused(m, s, q, nonce, created, c, flushed);
      }
    }
  }

  lemma DeliveredIsRefused(m: MissionStore, s: Store, q: AuthorizeRequest, nonce: string, created: int, c: Crypto, flushed: bool)
    requires MissionSafety.Inv(m, c.protector) && Good(s.relay, m, c.protector) && IsFinal(s.relay.hops, q.missionId, 1)
    ensures var (t, res) := Authorized(m, s, q, nonce, created, c.sha, c.protector, flushed); t == s && res.Err?
  {
    if q.missionId in m.missions {
      assert MissionSafety.MissionOk(q.missionId, m.missions[q.missionId], c.protector);
      FinalClosesTheMission(s.relay, m, q.missionId, c.protector);
      HandedOnIsRefused(m, s, q, nonce, created, c, flushed);
    }
  }

  /** Custody that has moved on refuses the creator. */
  lemma HandedOnIsRefused(m: MissionStore, s: Store, q: AuthorizeRequest, nonce: string, created: int, c: Crypto, flushed: bool)
    requires q.missionId in m.missions && MissionSafety.MissionOk(q.missionId, m.missions[q.missionId], c.protector)
    requires q.missionId !in s.relay.intents && q.missionId in s.relay.holders
    requires s.relay.holders[q.missionId] != m.missions[q.missionId].creator
    ensures var (t, res) := Authorized(m, s, q, nonce, created, c.sha, c.protector, flushed); t == s && res.Err?
  {
  }

  lemma TakenIsRefused(m: MissionStore, s: Store, q: AuthorizeRequest, nonce: string, created: int, c: Crypto, flushed: bool)
    requires PassChecked(m, s.relay, q) == Ok(Bound(q)) && q.missionId in s.relay.intents && !LeavesRoom(s.relay, q)
    requires q.missionId in m.missions && m.missions[q.missionId].id == q.missionId && m.missions[q.missionId].currentSequence == 0
    requires s.relay.intents[q.missionId].sequence == 1
    requires GetHop(s.relay.hops, q.missionId, 1).Some? ==> GetHop(s.relay.hops, q.missionId, 1).value.txHash != Some("")
    ensures var (t, res) := Authorized(m, s, q, nonce, created, c.sha, c.protector, flushed); t == s && res.Err?
  {
  }

  /**
   * From any good state: an authorization succeeds exactly when its flush returns and it is the holder's own signed request
   * for an undelivered, bound, ACTIVE mission along a passable invitation or none, and no other intent is in its way. It
   * then hands out the live intent, or opens exactly the one the request describes; a refused one changes nothing.
   */
  lemma AuthorizesExactlyWhen(m: MissionStore, s: Store, q: AuthorizeRequest, nonce: string, created: int, c: Crypto, flushed: bool)
    requires MissionSafety.Inv(m, c.protector) && Good(s.relay, m, c.protector)
    ensures var (t, res) := Authorized(m, s, q, nonce, created, c.sha, c.protector, flushed);
            && (res.Ok? <==> flushed && IsAuthorizable(m, s.relay, q))
            && (res.Ok? ==> IsOwnRequest(m, q) && q.missionId in t.relay.intents && res.value == t.relay.intents[q.missionId])
            && (!IsAuthorizable(m, s.relay, q) || IsLive(s.relay, q) ==> t == s)
            && (res.Ok? && !IsLive(s.relay, q) ==>
                  && MissionSafety.Target(m.missions[q.missionId], c.protector).Some?
                  && IsIntentFor(res.value, q, MissionSafety.Target(m.missions[q.missionId], c.protector).value, nonce, created, c.sha)
                  && Opened(s.relay, t.relay, res.value))
  {
    if !IsAuthorizable(m, s.relay, q) {
      OthersAreRefused(m, s, q, nonce, created, c, flushed);
    } else if IsLive(s.relay, q) {
      AuthorizableLiveIsHandedOut(m, s, q, nonce, created, c, flushed);
    } else {
      AuthorizableOpens(m, s, q, nonce, created, c, flushed);
    }
  }

  /** Whatever an authorization answers is the mission's own delivery, from the wallet that signed. */
  lemma AnsweredIsOwn(m: MissionStore, s: Store, q: AuthorizeRequest, nonce: string, created: int, c: Crypto, flushed: bool)
    requires MissionSafety.Inv(m, c.protector) && Good(s.relay, m, c.protector)
    requires Authorized(m, s, q, nonce, created, c.sha, c.protector, flushed).1.Ok?
    ensures var i := Authorized(m, s, q, nonce, created, c.sha, c.protector, flushed).1.value;
            i.batonId == q.missionId && i.currentHolder == q.auth.wallet && i.invitationId == Bound(q) && IsGiven(i.recipientData)
  {
    AuthorizesExactlyWhen(m, s, q, nonce, created, c, flushed);
    BeforeTheDelivery(m, s.relay, q.missionId, c.protector);
    if IsLive(s.relay, q) {
      AuthorizableLiveIsHandedOut(m, s, q, nonce, created, c, flushed);
      assert IntentLinked(q.missionId, s.relay.intents[q.missionId], m, c.protector);
    }
  }
}
