/** The coordinator drives the relay and the mission store step by step; this module is what its methods compute. */
module Coordinator {
  import opened Domain
  import opened Relay
  import opened RelayService
  import opened Missions
  import opened MissionService
  import opened MissionRepository
  import HopCommitment

  /** now is read when the request arrives; the intent it opens is dated when it is created. */
  datatype AuthorizeRequest = AuthorizeRequest(missionId: string, invitationId: Option<string>, auth: WalletAction, wallets: seq<string>, now: int)

  /** The answers one reconcile call gets: clock, chain, flush barrier, and the three mission reads it makes. */
  datatype Env = Env(at: int, first: Rpc, second: Rpc, flushed: bool, guardRead: bool, projection: bool, reread: bool)

  predicate IsGiven(s: Option<string>) {
    s.Some? && s.value != ""
  }

  // ---------------------------------------------------------------- authorizing a delivery

  predicate IsUnclaimed(claim: Option<Claim>) {
    claim.Some? && (!claim.value.status.CLAIMED? || !IsGiven(claim.value.claimedWallet))
  }

  /** Every guard before the relay is touched; answers the invitation to bind. claim is the repository's claim of the mission. */
  function PassGuarded(m: MissionStore, r: Relay, q: AuthorizeRequest, claim: Option<Claim>): Result<Option<string>> {
    if q.missionId !in m.missions then Err(MISSION_NOT_FOUND)
    else
      var mission := m.missions[q.missionId];
      if q.auth.action != AUTHORIZE_PASS then Err(WRONG_AUTH_ACTION)
      else if !mission.status.ACTIVE? then Err(MISSION_NOT_ACTIVE)
      else if q.auth.wallet != mission.currentHolder then Err(WRONG_CURRENT_HOLDER)
      else if mission.targetCiphertext.None? || mission.targetHmac.None? || !mission.targetConsent then Err(TARGET_NOT_BOUND)
      else if IsGiven(q.invitationId) then IntroductionChecked(m, r, q, mission)
      else if q.auth.missionId != Some(mission.id) || q.auth.invitationId.Some? || q.auth.sequence != Some(mission.currentSequence + 1) then
        Err(AUTH_BINDING_MISMATCH)
      else if IsUnclaimed(claim) then Err(DESTINATION_NOT_CLAIMED)
      else Ok(None)
  }

  function PassChecked(m: MissionStore, r: Relay, q: AuthorizeRequest): Result<Option<string>> {
    PassGuarded(m, r, q, LatestClaim(m.claims, q.missionId))
  }

  function IntroductionChecked(m: MissionStore, r: Relay, q: AuthorizeRequest, mission: Mission): Result<Option<string>>
    requires q.invitationId.Some?
  {
    var found := FindInvitation(m.invitations, q.invitationId.value);
    if found.None? then Err(INVITATION_NOT_FOUND)
    else
      var v := found.value;
      if q.auth.missionId != Some(mission.id) || q.auth.invitationId != Some(v.id) || q.auth.sequence != Some(v.sequence) then
        Err(AUTH_BINDING_MISMATCH)
      else if v.missionId != mission.id || v.sequence != mission.currentSequence + 1 then Err(INVITATION_SEQUENCE_MISMATCH)
      else if v.acceptedAt.Some? && v.passDeadlineAt.Some? && q.now >= v.passDeadlineAt.value then Err(PASS_DEADLINE_EXPIRED)
      else if !v.status.ACCEPTED? || !IsGiven(v.candidate) then Err(INVITATION_NOT_ACCEPTED)
      else if v.passDeadlineAt.None? then Err(PASS_DEADLINE_EXPIRED)
      else if InFinalRoute(r, mission.id, v.candidate.value) then Err(ROUTE_WALLET_REUSE)
      else Ok(Some(v.id))
  }

  /** Nothing is acknowledged before the flush barrier answers. */
  function Acknowledged<T>(s: Store, value: T, flushed: bool): (Store, Result<T>) {
    (s, if flushed then Ok(value) else Err(PERSISTENCE_FAILED))
  }

  function Issued(s: Store, q: PassRequest, nonce: string, now: int, sha: HopCommitment.Digest, flushed: bool)
    : (Store, Result<PassIntent>)
  {
    match Created(s, q, nonce, now, sha)
    case (t, Err(reason)) => (t, Err(reason))
    case (t, Ok(intent)) =>
      if !IsGiven(intent.recipientData) then (t, Err(MISSING_HOP_COMMITMENT)) else Acknowledged(t, intent, flushed)
  }

  predicate IsSameDelivery(existing: PassIntent, sequence: int, holder: string, target: string, invitationId: Option<string>) {
    && existing.sequence == sequence && existing.currentHolder == holder && existing.recipient == target
    && existing.invitationId == invitationId && existing.recipientData.Some?
  }

  function RequestFor(q: AuthorizeRequest, target: string, invitationId: Option<string>): PassRequest {
    PassRequest(q.missionId, q.auth.wallet, target, true, q.wallets, invitationId)
  }

  function Authorized(m: MissionStore, s: Store, q: AuthorizeRequest, nonce: string, now: int, sha: HopCommitment.Digest, p: Protector, flushed: bool)
    : (Store, Result<PassIntent>)
  {
    var checked := PassChecked(m, s.relay, q);
    if checked.Err? then (s, Err(checked.reason))
    else
      var mission := m.missions[q.missionId];
      var target := p.decrypt(mission.targetCiphertext.value);
      if target.None? then (s, Err(TARGET_DECRYPT_FAILED))
      else
        var request := RequestFor(q, target.value, checked.value);
        if mission.id !in s.relay.intents then Issued(s, request, nonce, now, sha, flushed)
        else
          var existing := s.relay.intents[mission.id];
          if !IsSameDelivery(existing, mission.currentSequence + 1, q.auth.wallet, target.value, checked.value) then
            (s, Err(RELAY_INTENT_CONFLICT))
          else if !IsStale(existing, q.now) then Acknowledged(s, existing, flushed)
          else if HasRecordedBroadcast(s.relay, mission.id) then (s, Err(STALE_BROADCASTED_INTENT))
          else match CancelledPass(s, mission.id)
            case (t, Err(reason)) => (t, Err(reason))
            case (t, Ok(_)) => Issued(t, request, nonce, now, sha, flushed)
  }

  // ---------------------------------------------------------------- recording a broadcast

  /** A transaction hash as the request parser lets it through. */
  type TxHash = h: string | h != "" witness "0"

  /** What is checked before the repository is asked: the open intent carries a commitment and is for this path. */
  function BroadcastBegun(r: Relay, id: string, invitationId: Option<string>): Result<PassIntent> {
    if id !in r.intents then Err(NO_ACTIVE_PASS)
    else
      var active := r.intents[id];
      if !IsGiven(active.recipientData) then Err(MISSING_HOP_COMMITMENT)
      else if active.invitationId != invitationId then Err(DELIVERY_AUTHORIZATION_MISMATCH)
      else Ok(active)
  }

  /** What is checked when the repository has answered, for the intent read before. */
  function PathChecked(m: MissionStore, active: PassIntent, id: string, claim: Option<Claim>): Result<()> {
    if IsGiven(active.invitationId) then
      var found := FindInvitation(m.invitations, active.invitationId.value);
      if found.None? then Err(INVITATION_NOT_FOUND)
      else if found.value.missionId != id || found.value.sequence != active.sequence || !found.value.status.ACCEPTED? then
        Err(INVITATION_PASS_MISMATCH)
      else Ok(())
    else
      if claim.Some? && !claim.value.status.CLAIMED? then Err(DESTINATION_NOT_CLAIMED) else Ok(())
  }

  /** What is done last: the relay reads the open intent again, and a failed flush hides its answer. */
  function HashRecorded(s: Store, id: string, hash: string, now: int, flushed: bool): (Store, Result<Hop>) {
    var (t, recorded) := RecordedBroadcast(s, id, hash, now);
    (t, if flushed then recorded else Err(PERSISTENCE_FAILED))
  }

  function BroadcastGuarded(m: MissionStore, r: Relay, id: string, invitationId: Option<string>, claim: Option<Claim>): Result<()> {
    var begun := BroadcastBegun(r, id, invitationId);
    if begun.Err? then Err(begun.reason) else PathChecked(m, begun.value, id, claim)
  }

  function BroadcastChecked(m: MissionStore, r: Relay, id: string, invitationId: Option<string>): Result<()> {
    BroadcastGuarded(m, r, id, invitationId, LatestClaim(m.claims, id))
  }

  /** A call that nothing disturbs between its two awaits. */
  function BroadcastAttached(m: MissionStore, s: Store, id: string, invitationId: Option<string>, hash: string, now: int, flushed: bool)
    : (Store, Result<Hop>)
  {
    var checked := BroadcastChecked(m, s.relay, id, invitationId);
    if checked.Err? then (s, Err(checked.reason)) else HashRecorded(s, id, hash, now, flushed)
  }

  /** A broadcast call that is still running: it waits for the repository, or for its last turn. */
  datatype Stage = READING | RECORDING | OVER

  datatype Attachment = Attachment(id: string, intent: PassIntent, hash: TxHash, stage: Stage)

  // ---------------------------------------------------------------- projecting a FINAL hop into the mission

  /** The first FINAL hop of the mission at the sequence, as the history lists it. */
  function FinalHop(hops: seq<Hop>, id: string, sequence: int): Option<Hop> {
    if |hops| == 0 then None
    else if InSlot(hops[0], id, sequence) && hops[0].status.FINAL? then Some(hops[0])
    else FinalHop(hops[1..], id, sequence)
  }

  /** claim is what the repository answers for the mission's destination claim. */
  function Projected(m: MissionStore, r: Relay, id: string, now: int, p: Protector, claim: Option<Claim>)
    : (MissionStore, Result<Option<Hop>>)
  {
    if id !in m.missions then (m, Err(MISSION_NOT_FOUND))
    else if !m.missions[id].status.ACTIVE? then (m, Ok(None))
    else
      var next := m.missions[id].currentSequence + 1;
      var found := FinalHop(r.hops, id, next);
      if found.None? then (m, Ok(None))
      else
        var h := found.value;
        var at := if h.confirmedAt.Some? then h.confirmedAt.value else now;
        if IsGiven(h.invitationId) then
          var v := FindInvitation(m.invitations, h.invitationId.value);
          if v.None? || !v.value.status.ACCEPTED? || v.value.sequence != next then (m, Err(FINAL_HOP_WITHOUT_ACCEPTED_INVITATION))
          else Delivered(IntroducedHopCompleted(m, id, v.value.id, next, h.recipient, p.hmac(h.recipient), at), h)
        else if IsUnclaimed(claim) then (m, Err(FINAL_HOP_WITHOUT_DESTINATION_CLAIM))
        else Delivered(DirectHopCompleted(m, id, next, h.recipient, p.hmac(h.recipient), at), h)
  }

  function Delivered(completed: (MissionStore, Result<()>), h: Hop): (MissionStore, Result<Option<Hop>>) {
    (completed.0, match completed.1 case Ok(_) => Ok(Some(h)) case Err(reason) => Err(reason))
  }

  datatype Reconciliation = Reconciliation(status: MissionStatus, hop: Option<Hop>)

  /** The relay observation is flushed before anything is projected. */
  function MissionReconciled(m: MissionStore, s: Store, id: string, env: Env, p: Protector)
    : (MissionStore, Store, Result<Reconciliation>)
  {
    var (t, observed) := Reconciled(s, id, env.at, env.first, env.second);
    if !env.flushed then (m, t, Err(PERSISTENCE_FAILED))
    else if observed.Err? then (m, t, Err(observed.reason))
    else if !env.projection then (m, t, Err(REPOSITORY_UNAVAILABLE))
    else
      var (n, applied) := Projected(m, t.relay, id, env.at, p, LatestClaim(m.claims, id));
      if applied.Err? then (n, t, Err(applied.reason))
      else if !env.reread then (n, t, Err(REPOSITORY_UNAVAILABLE))
      else if id !in n.missions then (n, t, Err(MISSION_NOT_FOUND))
      else (n, t, Ok(Reconciliation(n.missions[id].status, if observed.value.Some? then observed.value else applied.value)))
  }

  // ---------------------------------------------------------------- the background sweep

  const MAX_INVALID_BROADCAST_REPAIR_ATTEMPTS: nat := 3

  /** Both stores, and the two fields that live as long as the process. */
  datatype Coord = Coord(missions: MissionStore, store: Store, settled: set<string>, attempts: map<string, nat>)

  /** The candidate sets, fixed when a sweep starts. */
  datatype Plan = Plan(pending: set<string>, finalized: set<string>, invalid: set<string>)

  datatype Tally = Tally(checked: nat, arrived: nat, errors: nat)

  datatype Outcome = Skipped | Unread | Arrived | Advanced | Failed

  function Attempts(c: Coord, id: string): nat {
    if id in c.attempts then c.attempts[id] else 0
  }

  function SweepPlan(c: Coord): Plan {
    var r := c.store.relay;
    Plan(PendingReconciliation(r), FinalizedProjection(r) - c.settled,
         set b | b in RecoverableInvalid(r) && Attempts(c, b) < MAX_INVALID_BROADCAST_REPAIR_ATTEMPTS)
  }

  function Candidates(plan: Plan): set<string> {
    plan.pending + plan.finalized + plan.invalid
  }

  function Attempted(c: Coord, plan: Plan, id: string): Coord {
    if id in plan.invalid then c.(attempts := c.attempts[id := Attempts(c, id) + 1]) else c
  }

  function SweepOne(c: Coord, plan: Plan, id: string, env: Env, p: Protector): (Coord, Outcome) {
    if id !in plan.pending && (!env.guardRead || id !in c.missions.missions) then (c, Unread)
    else if id !in plan.pending && !c.missions.missions[id].status.ACTIVE? then (c.(settled := c.settled + {id}), Skipped)
    else
      var begun := Attempted(c, plan, id);
      var (n, t, res) := MissionReconciled(begun.missions, begun.store, id, env, p);
      var done := begun.(missions := n, store := t);
      if res.Err? then (done, Failed)
      else if res.value.status.ARRIVED? then (done.(settled := done.settled + {id}, attempts := done.attempts - {id}), Arrived)
      else if id !in plan.pending && !res.value.status.ACTIVE? then (done.(settled := done.settled + {id}), Advanced)
      else (done, Advanced)
  }

  function Counted(tally: Tally, outcome: Outcome): Tally {
    match outcome
    case Skipped => tally
    case Unread => tally.(errors := tally.errors + 1)
    case Arrived => tally.(checked := tally.checked + 1, arrived := tally.arrived + 1)
    case Advanced => tally.(checked := tally.checked + 1)
    case Failed => tally.(checked := tally.checked + 1, errors := tally.errors + 1)
  }

  function Swept(c: Coord, tally: Tally, plan: Plan, order: seq<string>, envs: string -> Env, p: Protector): (Coord, Tally)
    decreases |order|
  {
    if |order| == 0 then (c, tally)
    else
      var (d, outcome) := SweepOne(c, plan, order[0], envs(order[0]), p);
      Swept(d, Counted(tally, outcome), plan, order[1..], envs, p)
  }

  ghost predicate Visits(order: seq<string>, ids: set<string>) {
    && (forall i, j | 0 <= i < j < |order| :: order[i] != order[j])
    && (forall id :: id in order <==> id in ids)
  }

  lemma {:induction false} SweptSplits(c: Coord, tally: Tally, plan: Plan, order: seq<string>, id: string, envs: string -> Env, p: Protector)
    ensures Swept(c, tally, plan, order + [id], envs, p)
         == var (d, before) := Swept(c, tally, plan, order, envs, p);
            var (e, outcome) := SweepOne(d, plan, id, envs(id), p);
            (e, Counted(before, outcome))
    decreases |order|
  {
    if |order| > 0 {
      assert (order + [id])[1..] == order[1..] + [id];
      var (d, outcome) := SweepOne(c, plan, order[0], envs(order[0]), p);
      SweptSplits(d, Counted(tally, outcome), plan, order[1..], id, envs, p);
    } else {
      assert [id][1..] == [];
    }
  }

  lemma OneMoreVisited(order: seq<string>, all: set<string>, todo: set<string>, id: string)
    requires todo <= all && Visits(order, all - todo) && id in todo
    ensures Visits(order + [id], all - (todo - {id})) && todo - {id} <= all
  {
    forall other ensures other in order + [id] <==> other in all - (todo - {id}) {
      assert other in order + [id] <==> other in order || other == id;
    }
  }

  // ---------------------------------------------------------------- the coordinator object

  class ReachMissionCoordinator {
    const missions: ReachMissionService
    const repository: FileMissionRepository
    const relay: CanonicalRelayService
    const protector: Protector
    var projectionSettled: set<string>
    var invalidBroadcastRepairAttempts: map<string, nat>

    /** Both guards of the mission service ask the coordinator's relay from now on. */
    constructor (missions: ReachMissionService, repository: FileMissionRepository, relay: CanonicalRelayService, protector: Protector)
      modifies missions
      ensures this.missions == missions && this.repository == repository && this.relay == relay && this.protector == protector
      ensures missions.broadcastGuard == relay.store && missions.routeWalletGuard == relay.store
      ensures projectionSettled == {} && invalidBroadcastRepairAttempts == map[]
    {
      this.missions, this.repository, this.relay, this.protector := missions, repository, relay, protector;
      projectionSettled, invalidBroadcastRepairAttempts := {}, map[];
      new;
      missions.SetBroadcastGuard(relay.store);
      missions.SetRouteWalletGuard(relay.store);
    }

    method ActivePassRecipient(id: string) returns (recipient: Option<string>)
      ensures recipient == if id in relay.store.intents then Some(relay.store.intents[id].recipient) else None
    {
      return if id in relay.store.intents then Some(relay.store.intents[id].recipient) else None;
    }

    ghost function State(): Coord
      reads this, repository, relay.store
    {
      Coord(repository.State(), relay.store.State(), projectionSettled, invalidBroadcastRepairAttempts)
    }

    method Issue(q: PassRequest, nonce: string, now: int, sha: HopCommitment.Digest, flushed: bool) returns (res: Result<PassIntent>)
      modifies relay.store
      ensures (relay.store.State(), res) == Issued(old(relay.store.State()), q, nonce, now, sha, flushed)
    {
      res := relay.store.CreateIntent(q, nonce, now, sha);
      if res.Ok? && !IsGiven(res.value.recipientData) {
        return Err(MISSING_HOP_COMMITMENT);
      }
      if res.Ok? && !flushed {
        return Err(PERSISTENCE_FAILED);
      }
    }

    method AuthorizePass(q: AuthorizeRequest, nonce: string, now: int, sha: HopCommitment.Digest, flushed: bool)
      returns (res: Result<PassIntent>)
      modifies relay.store
      ensures (relay.store.State(), res)
           == Authorized(repository.State(), old(relay.store.State()), q, nonce, now, sha, protector, flushed)
    {
      var store := relay.store;
      var checked := PassChecked(MissionStore(repository.missions, repository.invitations, repository.claims),
                                 Relay(store.intents, store.hops, store.holders), q);
      if checked.Err? {
        return Err(checked.reason);
      }
      var mission := repository.missions[q.missionId];
      var target := protector.decrypt(mission.targetCiphertext.value);
      if target.None? {
        return Err(TARGET_DECRYPT_FAILED);
      }
      var request := RequestFor(q, target.value, checked.value);
      if mission.id in store.intents {
        var existing := store.intents[mission.id];
        if !IsSameDelivery(existing, mission.currentSequence + 1, q.auth.wallet, target.value, checked.value) {
          return Err(RELAY_INTENT_CONFLICT);
        }
        if !IsStale(existing, q.now) {
          return if flushed then Ok(existing) else Err(PERSISTENCE_FAILED);
        }
        var hop := GetHop(store.hops, mission.id, existing.sequence);
        if hop.Some? && HasHash(hop.value) {
          return Err(STALE_BROADCASTED_INTENT);
        }
        var cancelled := relay.CancelPass(mission.id);
        if cancelled.Err? {
          return Err(cancelled.reason);
        }
      }
      res := Issue(request, nonce, now, sha, flushed);
    }

    /** The three stretches of a broadcast call: other calls may run between them. */
    method BeginBroadcast(id: string, invitationId: Option<string>) returns (res: Result<PassIntent>)
      ensures res == BroadcastBegun(relay.store.State().relay, id, invitationId)
    {
      if id !in relay.store.intents {
        return Err(NO_ACTIVE_PASS);
      }
      var active := relay.store.intents[id];
      if !IsGiven(active.recipientData) {
        return Err(MISSING_HOP_COMMITMENT);
      }
      if active.invitationId != invitationId {
        return Err(DELIVERY_AUTHORIZATION_MISMATCH);
      }
      return Ok(active);
    }

    method CheckPath(active: PassIntent, id: string) returns (res: Result<()>)
      ensures res == PathChecked(repository.State(), active, id, LatestClaim(repository.claims, id))
    {
      if IsGiven(active.invitationId) {
        var found := FindInvitation(repository.invitations, active.invitationId.value);
        if found.None? {
          return Err(INVITATION_NOT_FOUND);
        }
        if found.value.missionId != id || found.value.sequence != active.sequence || !found.value.status.ACCEPTED? {
          return Err(INVITATION_PASS_MISMATCH);
        }
      } else {
        var claim := LatestClaim(repository.claims, id);
        if claim.Some? && !claim.value.status.CLAIMED? {
          return Err(DESTINATION_NOT_CLAIMED);
        }
      }
      return Ok(());
    }

    method FinishBroadcast(id: string, hash: string, now: int, flushed: bool) returns (res: Result<Hop>)
      modifies relay.store
      ensures (relay.store.State(), res) == HashRecorded(old(relay.store.State()), id, hash, now, flushed)
    {
      res := relay.RecordBroadcast(id, hash, now);
      if !flushed {
        return Err(PERSISTENCE_FAILED);
      }
    }

    method RecordBroadcast(id: string, invitationId: Option<string>, hash: string, now: int, flushed: bool) returns (res: Result<Hop>)
      modifies relay.store
      ensures (relay.store.State(), res)
           == BroadcastAttached(repository.State(), old(relay.store.State()), id, invitationId, hash, now, flushed)
    {
      var active := BeginBroadcast(id, invitationId);
      if active.Err? {
        return Err(active.reason);
      }
      var checked := CheckPath(active.value, id);
      if checked.Err? {
        return Err(checked.reason);
      }
      res := FinishBroadcast(id, hash, now, flushed);
    }

    method ApplyNextFinalizedHop(id: string, now: int) returns (res: Result<Option<Hop>>)
      modifies repository
      ensures (repository.State(), res)
           == Projected(old(repository.State()), relay.store.State().relay, id, now, protector, LatestClaim(old(repository.claims), id))
    {
      if id !in repository.missions {
        return Err(MISSION_NOT_FOUND);
      }
      if !repository.missions[id].status.ACTIVE? {
        return Ok(None);
      }
      var next := repository.missions[id].currentSequence + 1;
      var found := FinalHop(relay.store.hops, id, next);
      if found.None? {
        return Ok(None);
      }
      var h := found.value;
      var at := if h.confirmedAt.Some? then h.confirmedAt.value else now;
      var completed;
      if IsGiven(h.invitationId) {
        var v := FindInvitation(repository.invitations, h.invitationId.value);
        if v.None? || !v.value.status.ACCEPTED? || v.value.sequence != next {
          return Err(FINAL_HOP_WITHOUT_ACCEPTED_INVITATION);
        }
        completed := repository.CompleteFinalHop(id, v.value.id, next, h.recipient, protector.hmac(h.recipient), at);
      } else {
        if IsUnclaimed(LatestClaim(repository.claims, id)) {
          return Err(FINAL_HOP_WITHOUT_DESTINATION_CLAIM);
        }
        completed := repository.CompleteDirectFinalHop(id, next, h.recipient, protector.hmac(h.recipient), at);
      }
      return match completed case Ok(_) => Ok(Some(h)) case Err(reason) => Err(reason);
    }

    method Reconcile(id: string, env: Env) returns (res: Result<Reconciliation>)
      modifies repository, relay.store
      ensures (repository.State(), relay.store.State(), res)
           == MissionReconciled(old(repository.State()), old(relay.store.State()), id, env, protector)
    {
      var observed := relay.Reconcile(id, env.at, env.first, env.second);
      if !env.flushed {
        return Err(PERSISTENCE_FAILED);
      }
      if observed.Err? {
        return Err(observed.reason);
      }
      if !env.projection {
        return Err(REPOSITORY_UNAVAILABLE);
      }
      var applied := ApplyNextFinalizedHop(id, env.at);
      if applied.Err? {
        return Err(applied.reason);
      }
      if !env.reread {
        return Err(REPOSITORY_UNAVAILABLE);
      }
      if id !in repository.missions {
        return Err(MISSION_NOT_FOUND);
      }
      return Ok(Reconciliation(repository.missions[id].status, if observed.value.Some? then observed.value else applied.value));
    }

    /** One turn of the sweep's loop, its catch clause included. */
    method Visit(plan: Plan, id: string, env: Env) returns (outcome: Outcome)
      modifies this, repository, relay.store
      ensures (State(), outcome) == SweepOne(old(State()), plan, id, env, protector)
    {
      if id !in plan.pending {
        if !env.guardRead || id !in repository.missions {
          return Unread;
        }
        if !repository.missions[id].status.ACTIVE? {
          projectionSettled := projectionSettled + {id};
          return Skipped;
        }
      }
      if id in plan.invalid {
        var attempts := if id in invalidBroadcastRepairAttempts then invalidBroadcastRepairAttempts[id] else 0;
        invalidBroadcastRepairAttempts := invalidBroadcastRepairAttempts[id := attempts + 1];
      }
      var res := Reconcile(id, env);
      if res.Err? {
        return Failed;
      }
      if res.value.status.ARRIVED? {
        projectionSettled := projectionSettled + {id};
        invalidBroadcastRepairAttempts := invalidBroadcastRepairAttempts - {id};
        return Arrived;
      }
      if id !in plan.pending && !res.value.status.ACTIVE? {
        projectionSettled := projectionSettled + {id};
      }
      return Advanced;
    }

    /** Visits every candidate once, in some order; no outcome stops the loop. */
    method ReconcilePending(envs: string -> Env) returns (tally: Tally, ghost order: seq<string>)
      modifies this, repository, relay.store
      ensures Visits(order, Candidates(SweepPlan(old(State()))))
      ensures (State(), tally) == Swept(old(State()), Tally(0, 0, 0), SweepPlan(old(State())), order, envs, protector)
    {
      ghost var before := State();
      var plan := SweepPlan(Coord(MissionStore(repository.missions, repository.invitations, repository.claims),
                                  Store(Relay(relay.store.intents, relay.store.hops, relay.store.holders), relay.store.journal),
                                  projectionSettled, invalidBroadcastRepairAttempts));
      var todo := Candidates(plan);
      tally, order := Tally(0, 0, 0), [];
      while todo != {}
        invariant todo <= Candidates(plan) && Visits(order, Candidates(plan) - todo)
        invariant (State(), tally) == Swept(before, Tally(0, 0, 0), plan, order, envs, protector)
        decreases |todo|
      {
        var id :| id in todo;
        SweptSplits(before, Tally(0, 0, 0), plan, order, id, envs, protector);
        OneMoreVisited(order, Candidates(plan), todo, id);
        var outcome := Visit(plan, id, envs(id));
        tally := Counted(tally, outcome);
        order := order + [id];
        todo := todo - {id};
      }
      assert Candidates(plan) - {} == Candidates(plan);
    }
  }
}
