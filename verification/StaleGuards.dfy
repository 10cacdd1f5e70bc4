/**
 * An authorization asks the repository first and the relay last. Its mission answers may be out of date by then: other
 * calls can have changed the mission since.
 */
module StaleGuards {
  import opened Domain
  import opened Relay
  import opened RelayService
  import opened Missions
  import opened MissionService
  import MissionSafety
  import opened MissionOps
  import opened Coordinator
  import opened System
  import opened Reachability
  import opened Scenario

  lemma DeliveryStays(b: string, holder: string, recipient: string, seen: MissionStore, m: MissionStore, p: Protector)
    requires IsDeliveryOf(b, 1, holder, recipient, seen, p) && MissionSafety.Later(seen, m)
    ensures IsDeliveryOf(b, 1, holder, recipient, m, p)
  {
    assert MissionSafety.MissionLater(seen.missions[b], m.missions[b]);
  }

  lemma InvitationStays(b: string, id: string, seen: MissionStore, m: MissionStore)
    requires IsInvitationOf(seen, b, id) && MissionSafety.Later(seen, m)
    ensures IsInvitationOf(m, b, id)
  {
    var i :| 0 <= i < |seen.invitations| && seen.invitations[i].id == id && seen.invitations[i].missionId == b;
    assert MissionSafety.InvitationLater(seen.invitations[i], m.invitations[i]);
  }

  /** However old the answers are, both stores, every pending snapshot and the missions stay in step. */
  lemma OldAnswersKeepReady(s: Store, from: nat, seen: MissionStore, m: MissionStore, q: AuthorizeRequest, nonce: string, at: int, c: Crypto,
                            flushed: bool)
    requires MissionSafety.Inv(seen, c.protector) && MissionSafety.Later(seen, m)
    requires Ready(s, from, m, c.protector) && MissionSafety.Inv(m, c.protector)
    ensures Ready(Authorized(seen, s, q, nonce, at, c.sha, c.protector, flushed).0, from, m, c.protector)
  {
    var t := Authorized(seen, s, q, nonce, at, c.sha, c.protector, flushed).0;
    var request := AuthorizedShape(s, seen, q, nonce, at, c, flushed);
    if t != s {
      DeliveryStays(request.batonId, request.currentHolder, request.recipient, seen, m, c.protector);
      if request.invitationId.Some? { InvitationStays(request.batonId, request.invitationId.value, seen, m); }
      AuthorizationKeepsReady(s, t, from, request, nonce, at, c.sha, m, c.protector);
    }
  }

  lemma SameTarget(seen: MissionStore, m: MissionStore, id: string, p: Protector)
    requires MissionSafety.Inv(seen, p) && MissionSafety.Inv(m, p) && MissionSafety.Later(seen, m)
    requires id in seen.missions && seen.missions[id].status.ACTIVE? && MissionSafety.IsBound(seen.missions[id])
    ensures id in m.missions && m.missions[id].id == seen.missions[id].id && m.missions[id].targetCiphertext == seen.missions[id].targetCiphertext
    ensures m.missions[id].status.ACTIVE? ==> m.missions[id].currentSequence == seen.missions[id].currentSequence
  {
    assert MissionSafety.MissionLater(seen.missions[id], m.missions[id]);
    assert MissionSafety.MissionOk(id, seen.missions[id], p) && MissionSafety.MissionOk(id, m.missions[id], p);
  }

  /** What the relay, the cipher or the flush may answer once the guards are passed. */
  predicate IsLate(reason: Reason) {
    reason in {TARGET_DECRYPT_FAILED, RELAY_INTENT_CONFLICT, STALE_BROADCASTED_INTENT, CANNOT_CANCEL_BROADCAST, DUPLICATE_INTENT, SELF_PASS,
               WRONG_CURRENT_HOLDER, MISSING_HOP_COMMITMENT, PERSISTENCE_FAILED}
  }

  lemma PastTheGuards(m: MissionStore, s: Store, q: AuthorizeRequest, nonce: string, at: int, c: Crypto, flushed: bool)
    requires PassChecked(m, s.relay, q).Ok?
    ensures var res := Authorized(m, s, q, nonce, at, c.sha, c.protector, flushed).1; res.Err? ==> IsLate(res.reason)
  {
  }

  lemma Refusals(m: MissionStore, r: Relay, q: AuthorizeRequest)
    requires PassChecked(m, r, q).Err? && IsLate(PassChecked(m, r, q).reason)
    ensures q.missionId in m.missions && m.missions[q.missionId].status.ACTIVE? && q.auth.wallet != m.missions[q.missionId].currentHolder
  {
  }

  lemma PassedAsHolder(m: MissionStore, r: Relay, q: AuthorizeRequest)
    requires PassChecked(m, r, q).Ok?
    ensures q.missionId in m.missions && m.missions[q.missionId].status.ACTIVE? && q.auth.wallet == m.missions[q.missionId].currentHolder
    ensures MissionSafety.IsBound(m.missions[q.missionId])
  {
  }

  lemma SameHolder(seen: MissionStore, m: MissionStore, id: string, p: Protector)
    requires MissionSafety.Inv(seen, p) && MissionSafety.Inv(m, p) && MissionSafety.Later(seen, m)
    requires id in seen.missions && seen.missions[id].status.ACTIVE? && id in m.missions && m.missions[id].status.ACTIVE?
    ensures m.missions[id].currentHolder == seen.missions[id].currentHolder
  {
    assert MissionSafety.MissionLater(seen.missions[id], m.missions[id]);
    assert MissionSafety.MissionOk(id, seen.missions[id], p) && MissionSafety.MissionOk(id, m.missions[id], p);
  }

  lemma RefusedNow(seen: MissionStore, m: MissionStore, r: Relay, q: AuthorizeRequest, p: Protector)
    requires MissionSafety.Inv(seen, p) && MissionSafety.Inv(m, p) && MissionSafety.Later(seen, m)
    requires PassChecked(seen, r, q).Ok? && PassChecked(m, r, q).Err?
    ensures !IsLate(PassChecked(m, r, q).reason)
  {
    PassedAsHolder(seen, r, q);
    if IsLate(PassChecked(m, r, q).reason) {
      Refusals(m, r, q);
      SameHolder(seen, m, q.missionId, p);
    }
  }

  lemma SameAnswers(s: Store, seen: MissionStore, m: MissionStore, q: AuthorizeRequest, nonce: string, at: int, c: Crypto, flushed: bool)
    requires PassChecked(seen, s.relay, q).Ok? && PassChecked(m, s.relay, q) == PassChecked(seen, s.relay, q)
    requires m.missions[q.missionId].id == seen.missions[q.missionId].id
    requires m.missions[q.missionId].targetCiphertext == seen.missions[q.missionId].targetCiphertext
    requires m.missions[q.missionId].currentSequence == seen.missions[q.missionId].currentSequence
    ensures Authorized(seen, s, q, nonce, at, c.sha, c.protector, flushed) == Authorized(m, s, q, nonce, at, c.sha, c.protector, flushed)
  {
  }

  /** Where the old answers let a request pass, they lead to what fresh ones would exactly when those let it pass alike. */
  lemma OldAnswersAreAsGoodExactlyWhen(s: Store, seen: MissionStore, m: MissionStore, q: AuthorizeRequest, nonce: string, at: int, c: Crypto,
                                       flushed: bool)
    requires MissionSafety.Inv(seen, c.protector) && MissionSafety.Inv(m, c.protector) && MissionSafety.Later(seen, m)
    requires PassChecked(seen, s.relay, q).Ok?
    ensures Authorized(seen, s, q, nonce, at, c.sha, c.protector, flushed) == Authorized(m, s, q, nonce, at, c.sha, c.protector, flushed)
       <==> PassChecked(m, s.relay, q) == PassChecked(seen, s.relay, q)
  {
    PassedAsHolder(seen, s.relay, q);
    SameTarget(seen, m, q.missionId, c.protector);
    if PassChecked(m, s.relay, q).Err? {
      RefusedNow(seen, m, s.relay, q, c.protector);
      PastTheGuards(seen, s, q, nonce, at, c, flushed);
      RefusedAtOnce(m, s, q, nonce, at, c, flushed);
    } else {
      SamePath(seen, m, s.relay, q);
      SameAnswers(s, seen, m, q, nonce, at, c, flushed);
    }
  }

  lemma RefusedAtOnce(m: MissionStore, s: Store, q: AuthorizeRequest, nonce: string, at: int, c: Crypto, flushed: bool)
    requires PassChecked(m, s.relay, q).Err?
    ensures Authorized(m, s, q, nonce, at, c.sha, c.protector, flushed) == (s, Err(PassChecked(m, s.relay, q).reason))
  {
  }

  /** The guards answer the invitation the request names. */
  lemma SamePath(seen: MissionStore, m: MissionStore, r: Relay, q: AuthorizeRequest)
    requires PassChecked(seen, r, q).Ok? && PassChecked(m, r, q).Ok?
    ensures PassChecked(m, r, q) == PassChecked(seen, r, q)
  {
  }

  // ---------------------------------------------------------------- an intent for a cancelled mission

  /** Alice's mission as her cancellation leaves it. */
  function CancelledAtOnce(c: Crypto): MissionStore {
    MissionStore(map["m" := Opening(c).(status := MissionStatus.CANCELLED, cancelledAt := Some(3), updatedAt := 3)], [], [])
  }

  lemma CancellingComputes(c: Crypto)
    ensures ApplyOp(Begun(c), EMPTY, CancelMission("m", Alices(CANCEL_MISSION, None)), 3, c.protector) == CancelledAtOnce(c)
  {
  }

  /** The guards pass at 2, Alice cancels at 3, and at 4 the intent is opened all the same; fresh answers would refuse it. */
  lemma ACancelledMissionIsAuthorized(c: Crypto) returns (x: Sys, y: Sys)
    requires IsSound(c.protector)
    ensures Reachable(x, c) && Reachable(y, c) && x.clock <= 2 && y.clock == 3 && y.coord.missions == CancelledAtOnce(c)
    ensures var q, s := PassOf(None, 2), y.coord.store;
            && PassChecked(x.coord.missions, x.coord.store.relay, q) == Ok(None) && PassChecked(y.coord.missions, s.relay, q) == Err(MISSION_NOT_ACTIVE)
            && Authorized(x.coord.missions, s, q, "n", 4, c.sha, c.protector, true).1.Ok?
            && "m" in Authorized(x.coord.missions, s, q, "n", 4, c.sha, c.protector, true).0.relay.intents
  {
    x := Opened(c);
    CancellingComputes(c);
    y := OpLands(x, CancelMission("m", Alices(CANCEL_MISSION, None)), 3, c);
    OpensLate(x.coord.missions, y.coord.missions, y.coord.store, c);
  }

  lemma OpensLate(seen: MissionStore, m: MissionStore, s: Store, c: Crypto)
    requires IsSound(c.protector) && seen == Begun(c) && m == CancelledAtOnce(c) && s.relay == EMPTY
    ensures var q := PassOf(None, 2);
            && PassChecked(seen, EMPTY, q) == Ok(None) && PassChecked(m, EMPTY, q) == Err(MISSION_NOT_ACTIVE)
            && Authorized(seen, s, q, "n", 4, c.sha, c.protector, true).1.Ok?
            && "m" in Authorized(seen, s, q, "n", 4, c.sha, c.protector, true).0.relay.intents
  {
    assert ALICE[2] != BOB[2];
  }
}
