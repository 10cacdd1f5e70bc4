/** What a sweep reaches: whichever missions it visits first and whatever happens to them, a payment that is there arrives. */
module SweepProgress {
  import opened Domain
  import opened Relay
  import opened RelayService
  import opened RelaySafety
  import opened RelayRuns
  import opened Missions
  import opened MissionService
  import MissionSafety
  import opened Coordinator
  import opened System
  import opened Delivery
  import opened Reachability
  import opened HonestRun
  import RelayTheorems
  import opened Sweep

  /** Both stores are valid and tied together. */
  ghost predicate Whole(d: Coord, p: Protector) {
    MissionSafety.Inv(d.missions, p) && Good(d.store.relay, d.missions, p)
  }

  // ---------------------------------------------------------------- what one visit keeps

  lemma MissionReconciledIsGood(m: MissionStore, s: Store, id: string, env: Env, p: Protector)
    requires MissionSafety.Inv(m, p) && IsSound(p) && Good(s.relay, m, p)
    ensures var (n, t, _) := MissionReconciled(m, s, id, env, p); MissionSafety.Inv(n, p) && Good(t.relay, n, p)
  {
    var (n, t, _) := MissionReconciled(m, s, id, env, p);
    ProjectionFollowsFlush(m, s, id, env, p);
    ReconcileKeepsGood(m, s, id, env, p);
    if n != m {
      ProjectionIsSafe(m, t.relay, id, env.at, p, LatestClaim(m.claims, id));
      LinkedLater(t.relay, m, n, p);
    }
  }

  lemma VisitKeepsWhole(d: Coord, plan: Plan, id: string, env: Env, p: Protector)
    requires Whole(d, p) && IsSound(p)
    ensures Whole(SweepOne(d, plan, id, env, p).0, p)
  {
    VisitIsAReconcile(d, plan, id, env, p);
    MissionReconciledIsGood(d.missions, d.store, id, env, p);
  }

  /** Mission c is untouched, its accepted invitations included. */
  ghost predicate Apart(a: Coord, d: Coord, c: string) {
    Untouched(a, d, c) && forall v :: HasAccepted(d.missions, v, c) == HasAccepted(a.missions, v, c)
  }

  lemma ProjectionKeepsOthersAccepted(m: MissionStore, r: Relay, id: string, now: int, p: Protector, claim: Option<Claim>, c: string)
    requires MissionSafety.Inv(m, p) && c != id
    ensures forall v :: HasAccepted(Projected(m, r, id, now, p, claim).0, v, c) == HasAccepted(m, v, c)
  {
    var n := Projected(m, r, id, now, p, claim).0;
    if n.invitations != m.invitations {
      var i := ProjectionCompletes(m, r, id, now, p, claim);
      forall v ensures HasAccepted(n, v, c) == HasAccepted(m, v, c) {
        SameIndex(m.invitations, n.invitations, v);
      }
    }
  }

  /** The only invitation a projection changes is its own mission's. */
  lemma ProjectionCompletes(m: MissionStore, r: Relay, id: string, now: int, p: Protector, claim: Option<Claim>) returns (i: nat)
    requires Projected(m, r, id, now, p, claim).0.invitations != m.invitations
    ensures i < |m.invitations| && m.invitations[i].missionId == id
    ensures var n := Projected(m, r, id, now, p, claim).0.invitations;
            n == m.invitations[i := n[i]] && n[i].id == m.invitations[i].id && n[i].missionId == id
  {
    var h := FinalHop(r.hops, id, m.missions[id].currentSequence + 1).value;
    var v := FindInvitation(m.invitations, h.invitationId.value).value;
    i := InvitationIndex(m.invitations, v.id);
  }

  lemma {:induction false} SameIndex(a: seq<Invitation>, b: seq<Invitation>, id: string)
    requires |a| == |b| && forall i | 0 <= i < |a| :: a[i].id == b[i].id
    ensures InvitationIndex(a, id) == InvitationIndex(b, id)
  {
    if |a| > 0 { SameIndex(a[1..], b[1..], id); }
  }

  /** A visit, whatever its outcome, leaves every other mission as it is. */
  lemma VisitIsApart(d: Coord, plan: Plan, id: string, env: Env, p: Protector, c: string)
    requires Whole(d, p) && IsSound(p) && c != id
    ensures Apart(d, SweepOne(d, plan, id, env, p).0, c)
  {
    VisitStaysHome(d, plan, id, env, p);
    VisitIsAReconcile(d, plan, id, env, p);
    ProjectionFollowsFlush(d.missions, d.store, id, env, p);
    ProjectionKeepsOthersAccepted(d.missions, MissionReconciled(d.missions, d.store, id, env, p).1.relay, id, env.at, p,
                                  LatestClaim(d.missions.claims, id), c);
  }

  lemma ApartTwice(a: Coord, d: Coord, e: Coord, c: string)
    requires Apart(a, d, c) && Apart(d, e, c)
    ensures Apart(a, e, c)
  {
    UntouchedTwice(a, d, e, c);
  }

  // ---------------------------------------------------------------- what a sweep reaches

  lemma {:induction false} SweepKeepsApart(d: Coord, tally: Tally, plan: Plan, order: seq<string>, envs: string -> Env, p: Protector, c: string)
    requires Whole(d, p) && IsSound(p) && c !in order
    ensures var e := Swept(d, tally, plan, order, envs, p).0; Whole(e, p) && Apart(d, e, c)
    decreases |order|
  {
    if |order| > 0 {
      var (e, outcome) := SweepOne(d, plan, order[0], envs(order[0]), p);
      VisitKeepsWhole(d, plan, order[0], envs(order[0]), p);
      VisitIsApart(d, plan, order[0], envs(order[0]), p, c);
      SweepKeepsApart(e, Counted(tally, outcome), plan, order[1..], envs, p, c);
      ApartTwice(d, e, Swept(d, tally, plan, order, envs, p).0, c);
    }
  }

  ghost predicate IsDistinct(order: seq<string>) {
    forall i, j | 0 <= i < j < |order| :: order[i] != order[j]
  }

  /** The state in which the mission's turn comes. */
  function BeforeTurn(d: Coord, plan: Plan, order: seq<string>, envs: string -> Env, p: Protector, id: string): Coord
    decreases |order|
  {
    if |order| == 0 || order[0] == id then d else BeforeTurn(SweepOne(d, plan, order[0], envs(order[0]), p).0, plan, order[1..], envs, p, id)
  }

  lemma RestIsDistinct(order: seq<string>)
    requires |order| > 0 && IsDistinct(order)
    ensures IsDistinct(order[1..]) && order[0] !in order[1..]
  {
    assert forall i | 0 <= i < |order[1..]| :: order[1..][i] == order[i + 1];
  }

  /** When its turn comes a candidate is found as the sweep began, and what its visit leaves is what the sweep leaves. */
  lemma {:induction false} SweepReaches(d: Coord, tally: Tally, plan: Plan, order: seq<string>, envs: string -> Env, p: Protector, id: string)
    requires Whole(d, p) && IsSound(p) && id in order && IsDistinct(order)
    ensures var z, e := BeforeTurn(d, plan, order, envs, p, id), Swept(d, tally, plan, order, envs, p).0;
            Whole(z, p) && Apart(d, z, id) && Whole(e, p) && Apart(SweepOne(z, plan, id, envs(id), p).0, e, id)
    decreases |order|
  {
    var (e, outcome) := SweepOne(d, plan, order[0], envs(order[0]), p);
    VisitKeepsWhole(d, plan, order[0], envs(order[0]), p);
    RestIsDistinct(order);
    if order[0] == id {
      SweepKeepsApart(e, Counted(tally, outcome), plan, order[1..], envs, p, id);
    } else {
      VisitIsApart(d, plan, order[0], envs(order[0]), p, id);
      SweepReaches(e, Counted(tally, outcome), plan, order[1..], envs, p, id);
      ApartTwice(d, e, BeforeTurn(d, plan, order, envs, p, id), id);
    }
  }

  /** Nothing goes wrong at this mission's visit. */
  predicate IsUndisturbed(env: Env) {
    env.flushed && env.guardRead && env.projection && env.reread
  }

  lemma ActiveVisitReconciles(d: Coord, plan: Plan, id: string, env: Env, p: Protector)
    requires env.guardRead && id in d.missions.missions && d.missions.missions[id].status.ACTIVE?
    ensures var e := SweepOne(d, plan, id, env, p).0;
            e.missions == MissionReconciled(d.missions, d.store, id, env, p).0 && e.store == MissionReconciled(d.missions, d.store, id, env, p).1
  {
  }

  lemma ArrivedApart(a: Coord, d: Coord, c: string, p: Protector)
    requires Apart(a, d, c) && Whole(a, p) && Whole(d, p)
    ensures HasArrived(a.missions, a.store.relay, c) <==> HasArrived(d.missions, d.store.relay, c)
  {
    if c in a.missions.missions {
      FinalClosesTheMission(a.store.relay, a.missions, c, p);
      FinalClosesTheMission(d.store.relay, d.missions, c, p);
    }
  }

  // ---------------------------------------------------------------- whom a sweep visits

  predicate IsActive(d: Coord, id: string) {
    id in d.missions.missions && d.missions.missions[id].status.ACTIVE?
  }

  /** The slot of an open intent asks for a look: it is empty, waiting, or worth one of its three repairs. */
  predicate AsksForALook(d: Coord, id: string) {
    id in d.store.relay.intents &&
    match GetHop(d.store.relay.hops, id, d.store.relay.intents[id].sequence)
    case None => true
    case Some(h) => h.status in {HopStatus.PENDING, HopStatus.INCLUDED} || (h.status.INVALID? && HasHash(h) && Attempts(d, id) < 3)
  }

  /** Of the ACTIVE missions a sweep visits exactly those whose slot asks for a look and those beside a FINAL hop. */
  lemma VisitsExactly(d: Coord, id: string, p: Protector)
    requires Whole(d, p) && SettledOk(d) && IsActive(d, id)
    ensures id in Candidates(SweepPlan(d)) <==> AsksForALook(d, id) || IsFinal(d.store.relay.hops, id, 1)
  {
    FinalizedExactly(d.store.relay, d.missions, id, p);
    assert id !in d.settled;
    CandidatesExactly(d, id);
  }

  lemma CandidatesExactly(d: Coord, id: string)
    requires id !in d.settled
    ensures id in Candidates(SweepPlan(d)) <==> AsksForALook(d, id) || id in FinalizedProjection(d.store.relay)
  {
  }

  lemma FinalizedExactly(r: Relay, m: MissionStore, id: string, p: Protector)
    requires Good(r, m, p)
    ensures id in FinalizedProjection(r) <==> IsFinal(r.hops, id, 1)
  {
    if id in FinalizedProjection(r) {
      var i :| 0 <= i < |r.hops| && r.hops[i].status.FINAL? && r.hops[i].batonId == id;
      assert GetHop(r.hops, id, r.hops[i].sequence) == Some(r.hops[i]);
      assert HopLinked(r.hops[i], m, p);
    }
    if IsFinal(r.hops, id, 1) { SlotHolds(r.hops, id, 1); }
  }

  /** What a sweep leaves of an ACTIVE mission: what one undisturbed reconcile leaves if it is visited, else what it was. */
  lemma SweepLeaves(d: Coord, tally: Tally, order: seq<string>, envs: string -> Env, p: Protector, id: string)
    requires Whole(d, p) && IsSound(p) && SettledOk(d) && IsActive(d, id) && Visits(order, Candidates(SweepPlan(d))) && envs(id).guardRead
    ensures var e := Swept(d, tally, SweepPlan(d), order, envs, p).0;
            var z := BeforeTurn(d, SweepPlan(d), order, envs, p, id);
            if AsksForALook(d, id) || IsFinal(d.store.relay.hops, id, 1)
            then Whole(z, p) && Apart(d, z, id) && IsActive(z, id) && id in order
                 && var (n, t, _) := MissionReconciled(z.missions, z.store, id, envs(id), p);
                    HasArrived(e.missions, e.store.relay, id) <==> HasArrived(n, t.relay, id)
            else Untouched(d, e, id)
  {
    var plan := SweepPlan(d);
    VisitsExactly(d, id, p);
    if id in order {
      var z := BeforeTurn(d, plan, order, envs, p, id);
      SweepReaches(d, tally, plan, order, envs, p, id);
      ActiveVisitReconciles(z, plan, id, envs(id), p);
      VisitKeepsWhole(z, plan, id, envs(id), p);
      ArrivedApart(SweepOne(z, plan, id, envs(id), p).0, Swept(d, tally, plan, order, envs, p).0, id, p);
    } else {
      SweepKeepsApart(d, tally, plan, order, envs, p, id);
    }
  }

  /** No sweep that starts here touches the mission, in whatever order it goes and whatever it is shown. */
  ghost predicate IsPassedOver(d: Coord, id: string, p: Protector) {
    forall tally, order, envs | Visits(order, Candidates(SweepPlan(d))) :: Untouched(d, Swept(d, tally, SweepPlan(d), order, envs, p).0, id)
  }

  lemma OthersArePassedOver(d: Coord, id: string, p: Protector)
    requires Whole(d, p) && IsSound(p) && id !in Candidates(SweepPlan(d))
    ensures IsPassedOver(d, id, p)
  {
    forall tally, order, envs | Visits(order, Candidates(SweepPlan(d)))
      ensures Untouched(d, Swept(d, tally, SweepPlan(d), order, envs, p).0, id)
    {
      SweepKeepsApart(d, tally, SweepPlan(d), order, envs, p, id);
    }
  }

  lemma ReachableIsWhole(x: Sys, c: Crypto)
    requires Reachable(x, c) && IsSound(c.protector)
    ensures Whole(x.coord, c.protector) && SettledOk(x.coord)
  {
    var trace :| LegalRun(START, trace, c) && x == Run(START, trace, c);
    SettledHaveEnded(trace, c);
    LiveIsGood(x, c.protector);
  }

  // ---------------------------------------------------------------- recorded payments

  lemma SettleableApart(a: Coord, d: Coord, id: string, env: Env, tx: Tx)
    requires Apart(a, d, id) && IsSettleable(a.missions, a.store.relay, id, env, tx)
    ensures IsSettleable(d.missions, d.store.relay, id, env, tx)
  {
  }

  /**
   * One full sweep from any reachable state, whatever the other missions' visits meet: an ACTIVE mission whose recorded
   * payment is as agreed and shown final has ARRIVED afterwards exactly when its slot was PENDING or INCLUDED, or INVALID
   * with fewer than three repairs behind it.
   */
  lemma SweptPaymentArrivesExactlyWhen(x: Sys, tally: Tally, order: seq<string>, envs: string -> Env, c: Crypto, id: string, tx: Tx)
    requires Reachable(x, c) && IsSound(c.protector) && Visits(order, Candidates(SweepPlan(x.coord))) && IsUndisturbed(envs(id))
    requires IsActive(x.coord, id) && IsSettleable(x.coord.missions, x.coord.store.relay, id, envs(id), tx)
    ensures var e := Swept(x.coord, tally, SweepPlan(x.coord), order, envs, c.protector).0;
            var status := GetHop(x.coord.store.relay.hops, id, x.coord.store.relay.intents[id].sequence).value.status;
            (HasArrived(e.missions, e.store.relay, id) <==> status in {HopStatus.PENDING, HopStatus.INCLUDED} || (status.INVALID? && Attempts(x.coord, id) < 3))
  {
    var d, p := x.coord, c.protector;
    ReachableIsWhole(x, c);
    SweepLeaves(d, tally, order, envs, p, id);
    FinalClosesTheMission(d.store.relay, d.missions, id, p);
    if AsksForALook(d, id) {
      var z := BeforeTurn(d, SweepPlan(d), order, envs, p, id);
      SettleableApart(d, z, id, envs(id), tx);
      SettleableArrives(z.missions, z.store, id, envs(id), tx, p);
    }
  }

  // ---------------------------------------------------------------- a FINAL hop left unprojected

  /** The same sweep brings an ACTIVE mission beside a FINAL hop to ARRIVED exactly when that hop can be projected. */
  lemma SweptFinalArrivesExactlyWhen(x: Sys, tally: Tally, order: seq<string>, envs: string -> Env, c: Crypto, id: string)
    requires Reachable(x, c) && IsSound(c.protector) && Visits(order, Candidates(SweepPlan(x.coord))) && IsUndisturbed(envs(id))
    requires IsActive(x.coord, id) && IsFinal(x.coord.store.relay.hops, id, 1)
    ensures var e := Swept(x.coord, tally, SweepPlan(x.coord), order, envs, c.protector).0;
            (HasArrived(e.missions, e.store.relay, id)
             <==> CanProject(x.coord.missions, GetHop(x.coord.store.relay.hops, id, 1).value, id))
  {
    var d, p := x.coord, c.protector;
    ReachableIsWhole(x, c);
    SweepLeaves(d, tally, order, envs, p, id);
    var z := BeforeTurn(d, SweepPlan(d), order, envs, p, id);
    FinalClosesTheMission(z.store.relay, z.missions, id, p);
    assert Reconciled(z.store, id, envs(id).at, envs(id).first, envs(id).second) == (z.store, Ok(None));
    UndisturbedProjects(z.missions, z.store, id, envs(id), p);
    FinalHasArrivedExactlyWhen(z.missions, z.store.relay, id, envs(id).at, p);
  }

  // ---------------------------------------------------------------- payments nobody reported

  /** No other open intent's discovery comes up with this hash. */
  ghost predicate NobodyElseFinds(d: Coord, envs: string -> Env, id: string, hash: string) {
    forall b | b in d.store.relay.intents && b != id :: !Finds(d.store.relay.intents[b], envs(b).first, hash)
  }

  predicate Finds(i: PassIntent, rpc: Rpc, hash: string) {
    var found := Discovered(i, rpc); found.Ok? && found.value.Some? && found.value.value.hash == hash
  }

  predicate IsFree(s: Store, hash: string) {
    FindByHash(s.relay.hops, hash).None?
  }

  lemma RecordedKeepsFree(s: Store, h: Hop, hash: string)
    requires IsFree(s, hash) && h.txHash != Some(hash)
    ensures IsFree(Recorded(s, h).0, hash)
  {
  }

  lemma UpdatedKeepsFree(s: Store, b: string, k: int, patch: HopPatch, hash: string)
    requires IsFree(s, hash)
    ensures IsFree(Updated(s, b, k, patch).0, hash)
  {
  }

  lemma AppliedKeepsFree(s: Store, i: PassIntent, h: Hop, tx: Tx, now: int, rpc: Rpc, hash: string)
    requires IsFree(s, hash)
    ensures IsFree(AppliedTransaction(s, i, h, tx, now, rpc).0, hash)
  {
    UpdatedKeepsFree(s, i.batonId, i.sequence, StatusOnly(INVALID), hash);
    if rpc.head.Reply? { UpdatedKeepsFree(s, i.batonId, i.sequence, Verdict(tx, rpc.head.value, now), hash); }
  }

  lemma ExpiredKeepsFree(s: Store, i: PassIntent, hash: string)
    requires IsFree(s, hash)
    ensures IsFree(Expired(s, i).0, hash)
  {
    UpdatedKeepsFree(s, i.batonId, i.sequence, StatusOnly(INVALID), hash);
    RecordedKeepsFree(s, HopFor(i, None, INVALID), hash);
  }

  lemma FoundKeepsFree(s: Store, i: PassIntent, tx: Tx, env: Env, hash: string)
    requires IsFree(s, hash) && tx.hash != hash
    ensures var (t, res) := ObservedBroadcast(s, i, tx.hash);
            IsFree(t, hash) && (res.Ok? ==> IsFree(AppliedTransaction(t, i, res.value, tx, env.at, env.second).0, hash))
  {
    var (t, res) := ObservedBroadcast(s, i, tx.hash);
    RecordedKeepsFree(s, HopFor(i, Some(tx.hash), HopStatus.PENDING), hash);
    if res.Ok? { AppliedKeepsFree(t, i, res.value, tx, env.at, env.second, hash); }
  }

  lemma ReconcileKeepsFree(s: Store, b: string, env: Env, hash: string)
    requires IsFree(s, hash) && (b in s.relay.intents ==> !Finds(s.relay.intents[b], env.first, hash))
    ensures IsFree(Reconciled(s, b, env.at, env.first, env.second).0, hash)
  {
    if b in s.relay.intents {
      var i := s.relay.intents[b];
      var hop := GetHop(s.relay.hops, b, i.sequence);
      ExpiredKeepsFree(s, i, hash);
      if hop.None? || hop.value.txHash.None? {
        var found := Discovered(i, env.first);
        if found.Ok? && found.value.Some? { FoundKeepsFree(s, i, found.value.value, env, hash); }
      } else {
        var looked := env.first.transaction(hop.value.txHash.value);
        if looked.Reply? && looked.value.Some? { AppliedKeepsFree(s, i, hop.value, looked.value.value, env.at, env.second, hash); }
      }
    }
  }

  lemma VisitKeepsHashFree(d: Coord, plan: Plan, b: string, env: Env, p: Protector, hash: string)
    requires FindByHash(d.store.relay.hops, hash).None? && (b in d.store.relay.intents ==> !Finds(d.store.relay.intents[b], env.first, hash))
    ensures FindByHash(SweepOne(d, plan, b, env, p).0.store.relay.hops, hash).None?
  {
    VisitIsAReconcile(d, plan, b, env, p);
    ProjectionFollowsFlush(d.missions, d.store, b, env, p);
    ReconcileKeepsFree(d.store, b, env, hash);
  }

  lemma {:induction false} HashIsFreeAtItsTurn(d: Coord, plan: Plan, order: seq<string>, envs: string -> Env, p: Protector, id: string, hash: string)
    requires Whole(d, p) && IsSound(p) && FindByHash(d.store.relay.hops, hash).None? && NobodyElseFinds(d, envs, id, hash)
    ensures FindByHash(BeforeTurn(d, plan, order, envs, p, id).store.relay.hops, hash).None?
    decreases |order|
  {
    if |order| > 0 && order[0] != id {
      var e := SweepOne(d, plan, order[0], envs(order[0]), p).0;
      VisitKeepsWhole(d, plan, order[0], envs(order[0]), p);
      VisitStaysHome(d, plan, order[0], envs(order[0]), p);
      VisitKeepsHashFree(d, plan, order[0], envs(order[0]), p, hash);
      HashIsFreeAtItsTurn(e, plan, order[1..], envs, p, id, hash);
    }
  }

  /** Every history of the sweep shows a hash with one recipient data. */
  ghost predicate IsConsistent(envs: string -> Env, tx: Tx) {
    forall b, wallet, t | IsListed(envs(b).first, wallet, t) && t.hash == tx.hash :: t.recipientData == tx.recipientData
  }

  ghost predicate IsListed(rpc: Rpc, wallet: string, t: Tx) {
    rpc.history.Some? && rpc.history.value(wallet).Reply? && t in rpc.history.value(wallet).value
  }

  predicate CommitmentsDiffer(r: Relay, id: string) {
    id in r.intents && forall b | b in r.intents && b != id :: r.intents[b].recipientData != r.intents[id].recipientData
  }

  /** Commitments keep payments apart: what pays one intent cannot be found for another. */
  lemma CommitmentsKeepApart(d: Coord, envs: string -> Env, id: string, tx: Tx, p: Protector)
    requires Whole(d, p) && CommitmentsDiffer(d.store.relay, id) && IsConsistent(envs, tx) && IsAsAgreed(d.store.relay.intents[id], tx)
    ensures NobodyElseFinds(d, envs, id, tx.hash)
  {
    var r := d.store.relay;
    forall b | b in r.intents && b != id ensures !Finds(r.intents[b], envs(b).first, tx.hash) {
      if Finds(r.intents[b], envs(b).first, tx.hash) {
        var i, rpc := r.intents[b], envs(b).first;
        var t := Discovered(i, rpc).value.value;
        RelayTheorems.DiscoveryIsExact(rpc.history.value(i.recipient).value, Matcher(i, rpc));
        assert IsListed(rpc, i.recipient, t);
        RelayTheorems.ValidatedMeansPaid(i, t, rpc);
      }
    }
  }

  lemma DiscoverableApart(a: Coord, d: Coord, id: string, env: Env, tx: Tx)
    requires Apart(a, d, id) && IsDiscoverable(a.missions, a.store.relay, id, env, tx) && FindByHash(d.store.relay.hops, tx.hash).None?
    ensures IsDiscoverable(d.missions, d.store.relay, id, env, tx)
  {
  }

  /**
   * For a payment nobody reported: where commitments differ and the histories agree on it, the sweep finds it and its ACTIVE
   * mission arrives exactly when the slot is still empty or waiting. A slot closed as INVALID without a hash is never
   * visited again, although a renewed intent may be waiting in it.
   */
  lemma SweptDiscoveryArrivesExactlyWhen(x: Sys, tally: Tally, order: seq<string>, envs: string -> Env, c: Crypto, id: string, tx: Tx)
    requires Reachable(x, c) && IsSound(c.protector) && Visits(order, Candidates(SweepPlan(x.coord))) && IsUndisturbed(envs(id))
    requires IsActive(x.coord, id) && IsDiscoverable(x.coord.missions, x.coord.store.relay, id, envs(id), tx)
    requires CommitmentsDiffer(x.coord.store.relay, id) && IsConsistent(envs, tx)
    ensures var e := Swept(x.coord, tally, SweepPlan(x.coord), order, envs, c.protector).0;
            var slot := GetHop(x.coord.store.relay.hops, id, x.coord.store.relay.intents[id].sequence);
            (HasArrived(e.missions, e.store.relay, id) <==> slot.None? || slot.value.status in {HopStatus.PENDING, HopStatus.INCLUDED})
  {
    var d, p := x.coord, c.protector;
    ReachableIsWhole(x, c);
    SweepLeaves(d, tally, order, envs, p, id);
    FinalClosesTheMission(d.store.relay, d.missions, id, p);
    if AsksForALook(d, id) {
      var z := BeforeTurn(d, SweepPlan(d), order, envs, p, id);
      CommitmentsKeepApart(d, envs, id, tx, p);
      HashIsFreeAtItsTurn(d, SweepPlan(d), order, envs, p, id, tx.hash);
      DiscoverableApart(d, z, id, envs(id), tx);
      DiscoverableArrives(z.missions, z.store, id, envs(id), tx, p);
    }
  }
}
