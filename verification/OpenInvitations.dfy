/** How many invitations of a mission can be open at once. */
module OpenInvitations {
  import opened Domain
  import opened Relay
  import opened RelayService
  import opened Missions
  import opened MissionService
  import MissionSafety
  import opened MissionOps
  import opened Coordinator
  import opened System
  import opened Delivery
  import opened Reachability
  import opened Scenario

  predicate AtMostOneOpen(m: MissionStore) {
    forall i, j | 0 <= i < j < |m.invitations| && m.invitations[i].missionId == m.invitations[j].missionId ::
      !(IsOpen(m.invitations[i]) && IsOpen(m.invitations[j]))
  }

  /** Invitations stay what they are or close. */
  predicate OnlyCloses(m: MissionStore, n: MissionStore) {
    && |n.invitations| == |m.invitations|
    && forall i | 0 <= i < |m.invitations| ::
         n.invitations[i].missionId == m.invitations[i].missionId && (IsOpen(n.invitations[i]) ==> IsOpen(m.invitations[i]))
  }

  lemma ClosingKeepsOneOpen(m: MissionStore, n: MissionStore)
    requires AtMostOneOpen(m) && OnlyCloses(m, n)
    ensures AtMostOneOpen(n)
  {
  }

  lemma CreatingKeepsOneOpen(m: MissionStore, v: Invitation)
    requires AtMostOneOpen(m)
    ensures AtMostOneOpen(InvitationCreated(m, v).0)
  {
    var n := InvitationCreated(m, v).0;
    if n != m {
      assert n.invitations == m.invitations + [v];
      assert forall i | 0 <= i < |m.invitations| :: !(m.invitations[i].missionId == v.missionId && IsOpen(m.invitations[i]));
    }
  }

  lemma InvitingKeepsOneOpen(m: MissionStore, r: Relay, op: MissionOp, at: int, p: Protector)
    requires AtMostOneOpen(m) && op.Invite?
    ensures AtMostOneOpen(ApplyOp(m, r, op, at, p))
  {
    var route := RouteHas(r, Some(op.missionId), op.candidate);
    var n := InvitationOpened(m, op.missionId, op.auth.wallet, op.candidate, op.id, op.token, route, at).0;
    if n != m {
      var mission := m.missions[op.missionId];
      CreatingKeepsOneOpen(m, Invitation(op.id, mission.id, mission.currentSequence + 1, op.auth.wallet, op.candidate, op.token, INVITED, at,
                                         at + INVITATION_TTL_MS, None, None, None, None));
    }
  }

  lemma AcceptingOnlyCloses(m: MissionStore, token: string, wallet: string, route: bool, at: int)
    ensures OnlyCloses(m, InvitationAcceptedBy(m, token, wallet, route, at).0)
  {
    var found := InvitationByToken(m, token);
    if found.Some? { AcceptedOnlyCloses(m, found.value.id, wallet, at); }
  }

  lemma AcceptedOnlyCloses(m: MissionStore, id: string, wallet: string, at: int)
    ensures OnlyCloses(m, InvitationAccepted(m, id, wallet, at, at + ACCEPTED_PASS_DEADLINE_MS).0)
  {
  }

  lemma ClosingOnlyCloses(m: MissionStore, id: string, status: InvitationStatus, at: int)
    requires status.DECLINED? || status.WITHDRAWN?
    ensures OnlyCloses(m, InvitationClosed(m, id, status, at).0)
  {
  }

  /** Accepting, declining and withdrawing only ever close, or accept what was open. */
  lemma MovingOnlyCloses(m: MissionStore, r: Relay, op: MissionOp, at: int, p: Protector)
    requires op.Accept? || op.Decline? || op.Withdraw?
    ensures OnlyCloses(m, ApplyOp(m, r, op, at, p))
  {
    match op
    case Accept(token, auth) =>
      AcceptingOnlyCloses(m, token, auth.wallet, RouteHas(r, MissionOfInvitation(InvitationByToken(m, token)), Some(auth.wallet)), at);
    case Decline(token) =>
      var found := InvitationByToken(m, token);
      if found.Some? { ClosingOnlyCloses(m, found.value.id, DECLINED, at); }
    case Withdraw(id, auth) => ClosingOnlyCloses(m, id, WITHDRAWN, at);
  }

  lemma ClaimOpsLeaveInvitations(m: MissionStore, r: Relay, op: MissionOp, at: int, p: Protector)
    requires op.OpenClaim? || op.ReissueClaim? || op.ClaimDestination? || op.ExpireClaims?
    ensures ApplyOp(m, r, op, at, p).invitations == m.invitations
  {
  }

  lemma OthersOnlyClose(m: MissionStore, r: Relay, op: MissionOp, at: int, p: Protector)
    requires !IsInvitationOp(op) || op.ExpireInvitations?
    ensures OnlyCloses(m, ApplyOp(m, r, op, at, p))
  {
    if op.OpenClaim? || op.ReissueClaim? || op.ClaimDestination? || op.ExpireClaims? { ClaimOpsLeaveInvitations(m, r, op, at, p); }
  }

  /** Every operation but a reissue keeps at most one invitation of each mission open. */
  lemma OtherOpsKeepOneOpen(m: MissionStore, r: Relay, op: MissionOp, at: int, p: Protector)
    requires AtMostOneOpen(m) && !op.InviteAgain?
    ensures AtMostOneOpen(ApplyOp(m, r, op, at, p))
  {
    if op.Invite? {
      InvitingKeepsOneOpen(m, r, op, at, p);
    } else {
      if op.Accept? || op.Decline? || op.Withdraw? { MovingOnlyCloses(m, r, op, at, p); } else { OthersOnlyClose(m, r, op, at, p); }
      ClosingKeepsOneOpen(m, ApplyOp(m, r, op, at, p));
    }
  }

  lemma Reopens(m: MissionStore, r: Relay, op: MissionOp, at: int, p: Protector) returns (i: nat)
    requires MissionSafety.Inv(m, p) && op.InviteAgain?
    ensures var n := ApplyOp(m, r, op, at, p);
            n != m ==> && i < |m.invitations| == |n.invitations| && m.invitations[i].missionId == op.missionId && !IsOpen(m.invitations[i])
                       && IsOpen(n.invitations[i]) && n.invitations == m.invitations[i := n.invitations[i]]
                       && n.invitations[i].missionId == op.missionId
  {
    i := InvitationIndex(m.invitations, op.id);
    if op.missionId in m.missions { assert MissionSafety.MissionOk(op.missionId, m.missions[op.missionId], p); }
  }

  /** A reissue keeps it exactly when it is refused or no invitation of the mission was open. */
  lemma ReissueKeepsOneOpenExactlyWhen(m: MissionStore, r: Relay, op: MissionOp, at: int, p: Protector)
    requires MissionSafety.Inv(m, p) && AtMostOneOpen(m) && op.InviteAgain?
    ensures AtMostOneOpen(ApplyOp(m, r, op, at, p)) <==> ApplyOp(m, r, op, at, p) == m || OpenInvitation(m, op.missionId).None?
  {
    var n := ApplyOp(m, r, op, at, p);
    var i := Reopens(m, r, op, at, p);
    if n != m {
      OneMoreOpen(m, n, i);
    }
  }

  lemma OneMoreOpen(m: MissionStore, n: MissionStore, i: nat)
    requires AtMostOneOpen(m) && i < |m.invitations| && !IsOpen(m.invitations[i])
    requires |n.invitations| == |m.invitations| && IsOpen(n.invitations[i]) && n.invitations == m.invitations[i := n.invitations[i]]
    requires n.invitations[i].missionId == m.invitations[i].missionId
    ensures AtMostOneOpen(n) <==> OpenInvitation(m, m.invitations[i].missionId).None?
  {
    var found := OpenInvitation(m, m.invitations[i].missionId);
    if found.Some? {
      var j :| 0 <= j < |m.invitations| && m.invitations[j] == found.value;
      assert n.invitations[j] == m.invitations[j] && j != i;
      if AtMostOneOpen(n) { assert false; }
    }
  }

  lemma ProjectingOnlyCloses(m: MissionStore, r: Relay, id: string, now: int, p: Protector, claim: Option<Claim>)
    ensures OnlyCloses(m, Projected(m, r, id, now, p, claim).0)
  {
  }

  lemma ReconcilingOnlyCloses(m: MissionStore, s: Store, id: string, env: Env, p: Protector)
    ensures OnlyCloses(m, MissionReconciled(m, s, id, env, p).0)
  {
    ProjectionFollowsFlush(m, s, id, env, p);
    ProjectingOnlyCloses(m, Reconciled(s, id, env.at, env.first, env.second).0.relay, id, env.at, p, LatestClaim(m.claims, id));
  }

  /** No step of the run reopens an invitation while another one of its mission is open. */
  predicate ReissuesAlone(x: Sys, trace: seq<Turn>, c: Crypto)
    decreases |trace|
  {
    |trace| > 0 ==>
      (trace[0].event.Op? && trace[0].event.op.InviteAgain? ==> OpenInvitation(x.coord.missions, trace[0].event.op.missionId).None?)
      && ReissuesAlone(Apply(x, trace[0], c), trace[1..], c)
  }

  lemma OpKeepsOneOpen(m: MissionStore, r: Relay, op: MissionOp, at: int, p: Protector)
    requires MissionSafety.Inv(m, p) && AtMostOneOpen(m) && (op.InviteAgain? ==> OpenInvitation(m, op.missionId).None?)
    ensures AtMostOneOpen(ApplyOp(m, r, op, at, p))
  {
    if op.InviteAgain? { ReissueKeepsOneOpenExactlyWhen(m, r, op, at, p); } else { OtherOpsKeepOneOpen(m, r, op, at, p); }
  }

  lemma ReconcileKeepsOneOpen(m: MissionStore, s: Store, id: string, env: Env, p: Protector)
    requires AtMostOneOpen(m)
    ensures AtMostOneOpen(MissionReconciled(m, s, id, env, p).0)
  {
    ReconcilingOnlyCloses(m, s, id, env, p);
    ClosingKeepsOneOpen(m, MissionReconciled(m, s, id, env, p).0);
  }

  lemma StepKeepsOneOpen(x: Sys, s: Turn, c: Crypto)
    requires MissionSafety.Inv(x.coord.missions, c.protector) && AtMostOneOpen(x.coord.missions)
    requires s.event.Op? && s.event.op.InviteAgain? ==> OpenInvitation(x.coord.missions, s.event.op.missionId).None?
    ensures AtMostOneOpen(CoordAfter(x, s, c).missions)
  {
    var m, store, p := x.coord.missions, x.coord.store, c.protector;
    match s.event
    case Op(op) => OpKeepsOneOpen(m, store.relay, op, s.at, p);
    case Reconcile(id, env) => ReconcileKeepsOneOpen(m, store, id, env, p);
    case SweepNext(k, id, env) =>
      VisitIsAReconcile(x.coord, PlanOf(x, k), id, env, p);
      ReconcileKeepsOneOpen(m, store, id, env, p);
    case _ =>
  }

  /** Over every run without such a reissue, each mission has at most one open invitation. */
  lemma {:induction false} RunKeepsOneOpen(x: Sys, trace: seq<Turn>, c: Crypto)
    requires SysInv(x, c.protector) && IsSound(c.protector) && LegalRun(x, trace, c) && AtMostOneOpen(x.coord.missions)
    requires ReissuesAlone(x, trace, c)
    ensures AtMostOneOpen(Run(x, trace, c).coord.missions)
    decreases |trace|
  {
    if |trace| > 0 {
      LiveIsValid(x, c.protector);
      StepKeepsOneOpen(x, trace[0], c);
      ApplyParts(x, trace[0], c);
      ApplyKeepsSysInv(x, trace[0], c);
      RunKeepsOneOpen(Apply(x, trace[0], c), trace[1..], c);
    }
  }

  // ---------------------------------------------------------------- two open invitations

  const LAPSE := 2 + INVITATION_TTL_MS
  const LAPSED := INTRODUCTION.(status := InvitationStatus.EXPIRED, closedAt := Some(LAPSE))
  const SECOND := Invitation("j", "m", 1, ALICE, None, "u", INVITED, LAPSE, LAPSE + INVITATION_TTL_MS, None, None, None, None)
  const REOPENED := INTRODUCTION.(tokenHash := "w", createdAt := LAPSE, expiresAt := LAPSE + INVITATION_TTL_MS)

  const INVITING_AGAIN := Invite("m", Alices(CREATE_INVITATION, None), None, "j", "u")
  const REISSUING := InviteAgain("m", "i", Alices(CREATE_INVITATION, Some("i")), None, "w")

  function Holding(c: Crypto, invitations: seq<Invitation>): MissionStore {
    MissionStore(map["m" := Opening(c).(updatedAt := LAPSE)], invitations, [])
  }

  lemma LapseComputes(c: Crypto, r: Relay)
    ensures ApplyOp(WithInvitation(c, INTRODUCTION, 2), r, ExpireInvitations, LAPSE, c.protector) == Holding(c, [LAPSED])
  {
    var m := WithInvitation(c, INTRODUCTION, 2);
    assert m.invitations[0] == INTRODUCTION && HasDueInvitation(m.invitations, "m", LAPSE);
  }

  lemma SecondComputes(c: Crypto)
    ensures ApplyOp(Holding(c, [LAPSED]), EMPTY, INVITING_AGAIN, LAPSE, c.protector)
         == Holding(c, [LAPSED, SECOND])
  {
    var m := Holding(c, [LAPSED]);
    assert m.invitations[0] == LAPSED && "t" != "u";
    assert OpenInvitation(m, "m").None? && InvitationByToken(m, "u").None?;
    assert [LAPSED] + [SECOND] == [LAPSED, SECOND];
  }

  lemma ReissueComputes(c: Crypto)
    ensures ApplyOp(Holding(c, [LAPSED, SECOND]), EMPTY, REISSUING, LAPSE, c.protector)
         == Holding(c, [REOPENED, SECOND])
  {
    var m := Holding(c, [LAPSED, SECOND]);
    assert m.invitations[0] == LAPSED && m.invitations[1] == SECOND && "t"[0] != "w"[0] && "u"[0] != "w"[0];
    assert FindInvitation(m.invitations, "i") == Some(LAPSED);
    assert m.invitations[0 := REOPENED] == [REOPENED, SECOND];
  }

  /** Alice's first invitation lapses, she opens a second one, and then reissues the first: both are open. */
  lemma TwoInvitationsAreOpen(c: Crypto) returns (x: Sys)
    requires IsSound(c.protector)
    ensures Reachable(x, c) && x.coord.missions.invitations == [REOPENED, SECOND] && !AtMostOneOpen(x.coord.missions)
  {
    var w := Invited(c);
    LapseComputes(c, w.coord.store.relay);
    var y := OpLands(w, ExpireInvitations, LAPSE, c);
    SecondComputes(c);
    assert "i"[0] != "j"[0];
    var z := OpLands(y, INVITING_AGAIN, LAPSE, c);
    ReissueComputes(c);
    x := OpLands(z, REISSUING, LAPSE, c);
    BothAreOpen(x.coord.missions);
  }

  lemma BothAreOpen(m: MissionStore)
    requires m.invitations == [REOPENED, SECOND]
    ensures !AtMostOneOpen(m)
  {
    assert m.invitations[0] == REOPENED && m.invitations[1] == SECOND;
  }
}
