/** Where a storage adapter or the expiry sweep keeps a mission from being paid or from catching up, and exactly when. */
module AdapterGaps {
  import opened Domain
  import opened PaymentRails
  import opened Relay
  import opened RelayService
  import opened RelaySafety
  import opened PgRelayTables
  import opened Missions
  import opened MissionService
  import MissionSafety
  import MissionOps
  import opened Coordinator
  import opened System
  import opened Delivery
  import RelayTheorems

  // ---------------------------------------------------------------- the file adapter's claim lookup

  lemma {:induction false} FirstIsFirst(claims: seq<Claim>, id: string)
    ensures FirstClaim(claims, id).None? ==> forall i | 0 <= i < |claims| :: claims[i].missionId != id
    ensures FirstClaim(claims, id).Some? ==>
              exists i :: 0 <= i < |claims| && claims[i] == FirstClaim(claims, id).value && claims[i].missionId == id
                          && forall j | 0 <= j < i :: claims[j].missionId != id
  {
    if |claims| > 0 && claims[0].missionId != id {
      FirstIsFirst(claims[1..], id);
      if FirstClaim(claims[1..], id).Some? {
        var i :| 0 <= i < |claims[1..]| && claims[1..][i] == FirstClaim(claims, id).value && claims[1..][i].missionId == id
                 && forall j | 0 <= j < i :: claims[1..][j].missionId != id;
        assert claims[i + 1] == claims[1..][i];
        forall j | 0 <= j < i + 1 ensures claims[j].missionId != id {
          if j > 0 { assert claims[j] == claims[1..][j - 1]; }
        }
      } else {
        forall i | 0 <= i < |claims| ensures claims[i].missionId != id {
          if i > 0 { assert claims[i] == claims[1..][i - 1]; }
        }
      }
    } else if |claims| > 0 {
      assert claims[0] == FirstClaim(claims, id).value;
    }
  }

  /** Of a bound mission's claims only the latest is CLAIMED, so the first one is good only when it is the latest. */
  lemma FirstIsClaimedExactlyWhenLatest(m: MissionStore, id: string, p: Protector)
    requires MissionSafety.Inv(m, p) && id in m.missions && MissionSafety.IsBound(m.missions[id])
    ensures IsUnclaimed(FirstClaim(m.claims, id)) <==> FirstClaim(m.claims, id) != LatestClaim(m.claims, id)
  {
    FirstIsFirst(m.claims, id);
    LatestIsLatest(m.claims, id);
    BoundMeansClaimed(m, id, p);
    if FirstClaim(m.claims, id).Some? && LatestClaim(m.claims, id).Some? {
      var i :| 0 <= i < |m.claims| && m.claims[i] == FirstClaim(m.claims, id).value && m.claims[i].missionId == id
               && forall j | 0 <= j < i :: m.claims[j].missionId != id;
      var k :| 0 <= k < |m.claims| && m.claims[k] == LatestClaim(m.claims, id).value && MissionSafety.IsLatest(m.claims, k);
      assert MissionSafety.IsLiveClaim(m.claims[i]) ==> MissionSafety.IsLatest(m.claims, i);
    }
  }

  /**
   * The coordinator asks the repository for the mission's claim before it authorizes. Where the latest claim lets a direct
   * request pass, the file adapter's first claim lets it pass exactly when no claim was ever replaced.
   */
  lemma FileAdapterAuthorizesExactlyWhen(m: MissionStore, r: Relay, q: AuthorizeRequest, p: Protector)
    requires MissionSafety.Inv(m, p) && !IsGiven(q.invitationId) && PassChecked(m, r, q).Ok?
    ensures PassGuarded(m, r, q, FirstClaim(m.claims, q.missionId))
         == if FirstClaim(m.claims, q.missionId) == LatestClaim(m.claims, q.missionId) then Ok(None) else Err(DESTINATION_NOT_CLAIMED)
  {
    assert MissionSafety.MissionOk(q.missionId, m.missions[q.missionId], p);
    FirstIsClaimedExactlyWhenLatest(m, q.missionId, p);
  }

  /** The same guard stands before a direct broadcast. */
  lemma FileAdapterRecordsExactlyWhen(m: MissionStore, r: Relay, id: string, p: Protector)
    requires MissionSafety.Inv(m, p) && id in m.missions && MissionSafety.IsBound(m.missions[id])
    requires BroadcastChecked(m, r, id, None).Ok?
    ensures BroadcastGuarded(m, r, id, None, FirstClaim(m.claims, id)).Ok? <==> FirstClaim(m.claims, id) == LatestClaim(m.claims, id)
  {
    FirstIsClaimedExactlyWhenLatest(m, id, p);
    FirstIsFirst(m.claims, id);
    if FirstClaim(m.claims, id).Some? {
      var i :| 0 <= i < |m.claims| && m.claims[i] == FirstClaim(m.claims, id).value && m.claims[i].missionId == id
               && forall j | 0 <= j < i :: m.claims[j].missionId != id;
    }
  }

  /** The same lookup stands before the projection: it projects a direct delivery exactly when no claim was ever replaced. */
  lemma FileAdapterProjectsExactlyWhen(m: MissionStore, r: Relay, id: string, now: int, p: Protector)
    requires MissionSafety.Inv(m, p) && IsSound(p) && Good(r, m, p)
    requires id in m.missions && m.missions[id].status.ACTIVE? && IsFinal(r.hops, id, 1)
    requires !IsGiven(GetHop(r.hops, id, 1).value.invitationId)
    ensures Projected(m, r, id, now, p, FirstClaim(m.claims, id)).1.Ok? <==> FirstClaim(m.claims, id) == LatestClaim(m.claims, id)
  {
    FinalAwaitsProjection(m, r, id, p);
    DirectProjectsWhenClaimed(m, r, id, GetHop(r.hops, id, 1).value, now, p, FirstClaim(m.claims, id));
    BoundWhenAwaiting(m, r, id, GetHop(r.hops, id, 1).value, p);
    FirstIsClaimedExactlyWhenLatest(m, id, p);
  }

  lemma DirectProjectsWhenClaimed(m: MissionStore, r: Relay, id: string, h: Hop, now: int, p: Protector, claim: Option<Claim>)
    requires AwaitsProjection(m, r, id, h, p) && !IsGiven(h.invitationId)
    ensures Projected(m, r, id, now, p, claim).1.Ok? <==> !IsUnclaimed(claim)
  {
  }

  lemma BoundWhenAwaiting(m: MissionStore, r: Relay, id: string, h: Hop, p: Protector)
    requires AwaitsProjection(m, r, id, h, p)
    ensures id in m.missions && MissionSafety.IsBound(m.missions[id])
  {
  }

  // ---------------------------------------------------------------- for good

  lemma {:induction false} LookupsAgree(a: seq<Claim>, b: seq<Claim>, id: string)
    requires |a| <= |b| && forall i | 0 <= i < |a| :: (a[i].missionId == id <==> b[i].missionId == id) && (a[i].missionId == id ==> a[i] == b[i])
    requires forall i | |a| <= i < |b| :: b[i].missionId != id
    ensures FirstClaim(a, id) == FirstClaim(b, id)
    decreases |a|, |b|
  {
    if |a| > 0 {
      if a[0].missionId != id { LookupsAgree(a[1..], b[1..], id); }
    } else if |b| > 0 {
      LookupsAgree(a, b[1..], id);
    }
  }

  lemma {:induction false} LatestLookupsAgree(a: seq<Claim>, b: seq<Claim>, id: string)
    requires |a| <= |b| && forall i | 0 <= i < |a| :: (a[i].missionId == id <==> b[i].missionId == id) && (a[i].missionId == id ==> a[i] == b[i])
    requires forall i | |a| <= i < |b| :: b[i].missionId != id
    ensures LatestClaim(a, id) == LatestClaim(b, id)
    decreases |b|
  {
    if |b| > |a| {
      LatestLookupsAgree(a, b[..|b| - 1], id);
    } else if |b| > 0 && b[|b| - 1].missionId != id {
      LatestLookupsAgree(a[..|a| - 1], b[..|b| - 1], id);
    }
  }

  /** Once its destination is bound, a mission's claims never change again, so neither does what either adapter answers. */
  lemma BoundClaimsStay(s: MissionStore, t: MissionStore, id: string, p: Protector)
    requires MissionSafety.Inv(s, p) && MissionSafety.Later(s, t) && id in s.missions && MissionSafety.IsBound(s.missions[id])
    ensures FirstClaim(t.claims, id) == FirstClaim(s.claims, id) && LatestClaim(t.claims, id) == LatestClaim(s.claims, id)
  {
    forall i | 0 <= i < |s.claims| && s.claims[i].missionId == id ensures t.claims[i] == s.claims[i] {
      assert MissionSafety.IsLiveClaim(s.claims[i]) ==> MissionSafety.IsLatest(s.claims, i);
    }
    LookupsAgree(s.claims, t.claims, id);
    LatestLookupsAgree(s.claims, t.claims, id);
  }

  lemma UnclaimedIsRefused(m: MissionStore, r: Relay, q: AuthorizeRequest, claim: Option<Claim>)
    requires IsUnclaimed(claim) && !IsGiven(q.invitationId)
    ensures PassGuarded(m, r, q, claim).Err?
  {
  }

  lemma BlockedStaysBlocked(s: MissionStore, t: MissionStore, r: Relay, q: AuthorizeRequest, p: Protector)
    requires MissionSafety.Inv(s, p) && MissionSafety.Inv(t, p) && MissionSafety.Later(s, t) && !IsGiven(q.invitationId)
    requires q.missionId in s.missions && MissionSafety.IsBound(s.missions[q.missionId])
    requires FirstClaim(s.claims, q.missionId) != LatestClaim(s.claims, q.missionId)
    ensures PassGuarded(t, r, q, FirstClaim(t.claims, q.missionId)).Err?
  {
    BoundClaimsStay(s, t, q.missionId, p);
    assert MissionSafety.MissionLater(s.missions[q.missionId], t.missions[q.missionId]);
    FirstIsClaimedExactlyWhenLatest(t, q.missionId, p);
    UnclaimedIsRefused(t, r, q, FirstClaim(t.claims, q.missionId));
  }

  /** What changes the mission store behind the file adapter: an operation, or a projection that asked for the first claim. */
  ghost predicate AdapterStep(m: MissionStore, n: MissionStore, p: Protector) {
    || (exists r, op, at :: IsOpStep(m, n, r, op, at, p))
    || (exists r, id, now :: IsProjectionStep(m, n, r, id, now, p))
  }

  predicate IsOpStep(m: MissionStore, n: MissionStore, r: Relay, op: MissionOps.MissionOp, at: int, p: Protector) {
    MissionOps.IsLegal(m, op) && n == MissionOps.ApplyOp(m, r, op, at, p)
  }

  ghost predicate IsProjectionStep(m: MissionStore, n: MissionStore, r: Relay, id: string, now: int, p: Protector) {
    RelaySafety.Inv(r) && ArrivedIn(r, m) && n == Projected(m, r, id, now, p, FirstClaim(m.claims, id)).0
  }

  lemma AdapterStepKeeps(m: MissionStore, n: MissionStore, p: Protector)
    requires MissionSafety.Inv(m, p) && IsSound(p) && AdapterStep(m, n, p)
    ensures MissionSafety.Inv(n, p) && MissionSafety.Later(m, n)
  {
    if r, op, at :| IsOpStep(m, n, r, op, at, p) {
      MissionOps.OpKeeps(m, r, op, at, p);
    } else {
      var r, id, now :| IsProjectionStep(m, n, r, id, now, p);
      ProjectionIsSafe(m, r, id, now, p, FirstClaim(m.claims, id));
    }
  }

  ghost predicate IsAdapterRun(history: seq<MissionStore>, p: Protector) {
    |history| > 0 && forall i | 0 < i < |history| :: AdapterStep(history[i - 1], history[i], p)
  }

  lemma {:induction false} AdapterRunKeeps(history: seq<MissionStore>, p: Protector)
    requires IsAdapterRun(history, p) && MissionSafety.Inv(history[0], p) && IsSound(p)
    ensures MissionSafety.Inv(history[|history| - 1], p) && MissionSafety.Later(history[0], history[|history| - 1])
    decreases |history|
  {
    var last := |history| - 1;
    if last == 0 {
      MissionSafety.NothingKeeps(history[0], p);
    } else {
      ShorterRun(history, p);
      AdapterRunKeeps(history[..last], p);
      OneStepLater(history[0], history[last - 1], history[last], p);
    }
  }

  lemma ShorterRun(history: seq<MissionStore>, p: Protector)
    requires IsAdapterRun(history, p) && |history| > 1
    ensures IsAdapterRun(history[..|history| - 1], p) && AdapterStep(history[|history| - 2], history[|history| - 1], p)
  {
    var shorter := history[..|history| - 1];
    forall i | 0 < i < |shorter| ensures AdapterStep(shorter[i - 1], shorter[i], p) {
      assert AdapterStep(history[i - 1], history[i], p);
    }
  }

  lemma OneStepLater(s: MissionStore, m: MissionStore, n: MissionStore, p: Protector)
    requires MissionSafety.Inv(m, p) && IsSound(p) && AdapterStep(m, n, p) && MissionSafety.Later(s, m)
    ensures MissionSafety.Inv(n, p) && MissionSafety.Later(s, n)
  {
    AdapterStepKeeps(m, n, p);
    MissionSafety.LaterIsTransitive(s, m, n);
  }

  /** A mission the file adapter blocks stays blocked over every run behind it: no direct payment of it is ever authorized. */
  lemma BlockedForGood(history: seq<MissionStore>, p: Protector, r: Relay, q: AuthorizeRequest)
    requires IsAdapterRun(history, p) && MissionSafety.Inv(history[0], p) && IsSound(p) && !IsGiven(q.invitationId)
    requires q.missionId in history[0].missions && MissionSafety.IsBound(history[0].missions[q.missionId])
    requires FirstClaim(history[0].claims, q.missionId) != LatestClaim(history[0].claims, q.missionId)
    ensures var m := history[|history| - 1]; PassGuarded(m, r, q, FirstClaim(m.claims, q.missionId)).Err?
  {
    AdapterRunKeeps(history, p);
    BlockedStaysBlocked(history[0], history[|history| - 1], r, q, p);
  }

  // ---------------------------------------------------------------- the expiry sweep

  /** An ACCEPTED invitation that is due at the given time. */
  predicate IsPaidButDue(m: MissionStore, h: Hop, id: string, at: int) {
    && IsGiven(h.invitationId) && HasAccepted(m, h.invitationId.value, id)
    && IsDueInvitation(FindInvitation(m.invitations, h.invitationId.value).value, at)
  }

  lemma ExpiryCloses(m: MissionStore, id: string, at: int)
    requires FindInvitation(m.invitations, id).Some? && IsDueInvitation(FindInvitation(m.invitations, id).value, at)
    ensures var v := FindInvitation(InvitationsExpired(m, at).invitations, id); v.Some? && v.value.status.EXPIRED?
  {
    var n := InvitationsExpired(m, at);
    assert forall i | 0 <= i < |m.invitations| :: n.invitations[i].id == m.invitations[i].id;
    var i, j := InvitationIndex(m.invitations, id), InvitationIndex(n.invitations, id);
    assert i == j;
  }

  lemma ClosedStopsTheProjection(m: MissionStore, r: Relay, id: string, h: Hop, now: int, p: Protector)
    requires AwaitsProjection(m, r, id, h, p) && IsGiven(h.invitationId)
    requires FindInvitation(m.invitations, h.invitationId.value).Some? ==> FindInvitation(m.invitations, h.invitationId.value).value.status.EXPIRED?
    ensures Projected(m, r, id, now, p, LatestClaim(m.claims, id)) == (m, Err(FINAL_HOP_WITHOUT_ACCEPTED_INVITATION))
  {
  }

  lemma ExpiryKeepsAwaiting(m: MissionStore, r: Relay, id: string, h: Hop, at: int, p: Protector)
    requires AwaitsProjection(m, r, id, h, p)
    ensures AwaitsProjection(InvitationsExpired(m, at), r, id, h, p)
  {
  }

  /** Closing a due invitation while its payment is in flight: the projection that would have succeeded now fails. */
  lemma ExpiryStopsAnIntroducedDelivery(m: MissionStore, r: Relay, id: string, at: int, now: int, p: Protector)
    requires MissionSafety.Inv(m, p) && IsSound(p) && Good(r, m, p)
    requires id in m.missions && m.missions[id].status.ACTIVE? && IsFinal(r.hops, id, 1)
    requires IsPaidButDue(m, GetHop(r.hops, id, 1).value, id, at)
    ensures Projected(m, r, id, now, p, LatestClaim(m.claims, id)).1.Ok?
    ensures var n := InvitationsExpired(m, at);
            id in n.missions && n.missions[id].status.ACTIVE?
            && Projected(n, r, id, now, p, LatestClaim(n.claims, id)) == (n, Err(FINAL_HOP_WITHOUT_ACCEPTED_INVITATION))
  {
    var h := GetHop(r.hops, id, 1).value;
    FinalAwaitsProjection(m, r, id, p);
    AwaitingProjects(m, r, id, h, now, p);
    ExpiryCloses(m, h.invitationId.value, at);
    ExpiryKeepsAwaiting(m, r, id, h, at, p);
    ClosedStopsTheProjection(InvitationsExpired(m, at), r, id, h, now, p);
  }
}
