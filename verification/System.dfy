/**
 * The mission surface as one state machine: both live stores, the durable relay tables and the maintenance sweep, with
 * writes that may lag, flush barriers that may fail, and crashes that reload the relay from the tables.
 */
module System {
  import opened Domain
  import opened PaymentRails
  import opened Relay
  import opened RelayService
  import opened RelaySafety
  import opened RelayRuns
  import opened PgRelayTables
  import opened Missions
  import opened MissionService
  import MissionSafety
  import opened MissionOps
  import opened Coordinator
  import HopCommitment

  /** persisted is the index of the journal snapshot the tables hold; the journal starts with the hydrated state. */
  datatype Sys = Sys(coord: Coord, sweeps: seq<Sweep>, calls: seq<Attachment>, db: Tables, persisted: nat, clock: int)

  /** A sweep started by the timer: its candidate sets and the candidates it has not visited yet. Sweeps may overlap. */
  datatype Sweep = Sweep(plan: Plan, todo: set<string>)

  datatype Event =
    | Op(op: MissionOp)
    | Authorize(request: AuthorizeRequest, nonce: string, flushed: bool)
    | FreezeRails(id: string, candidates: seq<string>, rpc: Rpc, flushed: bool)
    | StartBroadcast(id: string, invitationId: Option<string>, hash: TxHash)
    | ReadPath(call: nat)
    | RecordHash(call: nat, flushed: bool)
    | Reconcile(id: string, env: Env)
    | BeginSweep
    | SweepNext(sweep: nat, id: string, env: Env)
    | Persist(version: nat)
    | Crash(reloaded: Relay)

  /** fill is how the tables answer the invitation lookup if this step writes a snapshot. */
  datatype Turn = Turn(event: Event, at: int, fill: InvitationLookup)

  datatype Crypto = Crypto(sha: HopCommitment.Digest, protector: Protector)

  const NO_PLAN := Plan({}, {}, {})
  const START := Sys(Coord(NO_MISSIONS, Store(EMPTY, [EMPTY]), {}, map[]), [], [], NO_TABLES, 0, 0)

  function WithStore(x: Sys, s: Store): Sys {
    x.(coord := x.coord.(store := s))
  }

  function WithMissions(x: Sys, m: MissionStore): Sys {
    x.(coord := x.coord.(missions := m))
  }

  function Persisted(x: Sys, i: nat, fill: InvitationLookup): Sys
    requires i < |x.coord.store.journal|
  {
    x.(db := Written(x.db, x.coord.store.journal[i], x.coord.missions.missions.Keys, fill), persisted := i)
  }

  /** A flush that returned means the tables hold the state it was called on. */
  function Flushed(x: Sys, ok: bool, fill: InvitationLookup): Sys {
    if ok && |x.coord.store.journal| > 0 then Persisted(x, |x.coord.store.journal| - 1, fill) else x
  }

  function PlanOf(x: Sys, k: nat): Plan {
    if k < |x.sweeps| then x.sweeps[k].plan else NO_PLAN
  }

  function Visited(sweeps: seq<Sweep>, k: nat, id: string): seq<Sweep> {
    if k < |sweeps| then sweeps[k := sweeps[k].(todo := sweeps[k].todo - {id})] else sweeps
  }

  /** The relay store after the step. */
  function StoreAfter(x: Sys, s: Turn, c: Crypto): Store {
    var m, store, p := x.coord.missions, x.coord.store, c.protector;
    match s.event
    case Authorize(q, nonce, flushed) => Authorized(m, store, q, nonce, s.at, c.sha, p, flushed).0
    case FreezeRails(id, candidates, rpc, _) => FrozenVerified(store, id, candidates, s.at, rpc).0
    case RecordHash(k, _) => if k < |x.calls| then RecordedBroadcast(store, x.calls[k].id, x.calls[k].hash, s.at).0 else store
    case Reconcile(id, env) => MissionReconciled(m, store, id, env, p).1
    case SweepNext(k, id, env) => SweepOne(x.coord, PlanOf(x, k), id, env, p).0.store
    case Crash(r) => Store(r, [r])
    case _ => store
  }

  /** Both stores and the books after the step. */
  function CoordAfter(x: Sys, s: Turn, c: Crypto): Coord {
    var m, store, p := x.coord.missions, x.coord.store, c.protector;
    match s.event
    case Op(op) => x.coord.(missions := ApplyOp(m, store.relay, op, s.at, p))
    case Reconcile(id, env) => x.coord.(missions := MissionReconciled(m, store, id, env, p).0, store := StoreAfter(x, s, c))
    case SweepNext(k, id, env) => SweepOne(x.coord, PlanOf(x, k), id, env, p).0
    case Crash(r) => Coord(m, Store(r, [r]), {}, map[])
    case _ => x.coord.(store := StoreAfter(x, s, c))
  }

  /** The step's call waited for a flush that returned. */
  predicate FlushReturns(x: Sys, s: Turn) {
    match s.event
    case Authorize(_, _, flushed) => flushed
    case FreezeRails(id, candidates, rpc, flushed) => FrozenDurably(x.coord.store, id, candidates, s.at, rpc, flushed).1.Ok?
    case RecordHash(_, flushed) => flushed
    case Reconcile(_, env) => env.flushed
    case SweepNext(_, _, env) => env.flushed
    case _ => false
  }

  /** The tables after the step, in a state that already has the store. */
  function WrittenAfter(y: Sys, s: Turn, flushed: bool): Sys {
    match s.event
    case Persist(i) => if i < |y.coord.store.journal| then Persisted(y, i, s.fill) else y
    case Crash(_) => y.(persisted := 0)
    case _ => Flushed(y, flushed, s.fill)
  }

  function SweepsAfter(x: Sys, s: Turn): seq<Sweep> {
    match s.event
    case BeginSweep => x.sweeps + [Sweep(SweepPlan(x.coord), Candidates(SweepPlan(x.coord)))]
    case SweepNext(k, id, _) => Visited(x.sweeps, k, id)
    case Crash(_) => []
    case _ => x.sweeps
  }

  /** The broadcast calls that wait for an answer; a call that is over keeps its place. */
  function CallsAfter(x: Sys, s: Turn): seq<Attachment> {
    match s.event
    case StartBroadcast(id, invitationId, hash) =>
      var begun := BroadcastBegun(x.coord.store.relay, id, invitationId);
      if begun.Ok? then x.calls + [Attachment(id, begun.value, hash, READING)] else x.calls
    case ReadPath(k) => if k < |x.calls| then Staged(x.calls, k, if IsLetThrough(x, k) then RECORDING else OVER) else x.calls
    case RecordHash(k, _) => if k < |x.calls| then Staged(x.calls, k, OVER) else x.calls
    case Crash(_) => []
    case _ => x.calls
  }

  function Staged(calls: seq<Attachment>, k: nat, stage: Stage): seq<Attachment>
    requires k < |calls|
  {
    calls[k := calls[k].(stage := stage)]
  }

  predicate IsLetThrough(x: Sys, k: nat)
    requires k < |x.calls|
  {
    PathChecked(x.coord.missions, x.calls[k].intent, x.calls[k].id, LatestClaim(x.coord.missions.claims, x.calls[k].id)).Ok?
  }

  function Apply(x: Sys, s: Turn, c: Crypto): Sys {
    WrittenAfter(WithStore(x, StoreAfter(x, s, c)), s, FlushReturns(x, s))
    .(coord := CoordAfter(x, s, c), sweeps := SweepsAfter(x, s), calls := CallsAfter(x, s), clock := s.at)
  }

  /** The tables answer with an invitation of the mission at the sequence, when there is one. Record ids are not empty. */
  ghost predicate IsLookup(fill: InvitationLookup, m: MissionStore) {
    forall b, k ::
      match fill(b, k)
      case None => forall i | 0 <= i < |m.invitations| :: m.invitations[i].missionId != b || m.invitations[i].sequence != k
      case Some(id) => id != "" && exists i :: 0 <= i < |m.invitations| && m.invitations[i].id == id
                                               && m.invitations[i].missionId == b && m.invitations[i].sequence == k
  }

  /**
   * The clock never runs back; wallets are user-friendly addresses and hashes real; snapshots are written in
   * order; a crash reloads the tables.
   */
  ghost predicate Legal(x: Sys, s: Turn) {
    && x.clock <= s.at && IsLookup(s.fill, x.coord.missions)
    && match s.event
       case Op(op) => IsLegal(x.coord.missions, op)
       case Authorize(q, _, _) => x.clock <= q.now <= s.at && forall w | w in q.wallets :: IsNimiqAddress(w)
       case ReadPath(k) => k < |x.calls| && x.calls[k].stage.READING?
       case RecordHash(k, _) => k < |x.calls| && x.calls[k].stage.RECORDING?
       case Reconcile(_, env) => env.at == s.at
       case SweepNext(k, id, env) => k < |x.sweeps| && id in x.sweeps[k].todo && env.at == s.at
       case Persist(i) => x.persisted <= i < |x.coord.store.journal|
       case Crash(r) => LoadedFrom(x.db, r)
       case _ => true
  }

  function Run(x: Sys, trace: seq<Turn>, c: Crypto): Sys
    decreases |trace|
  {
    if |trace| == 0 then x else Run(Apply(x, trace[0], c), trace[1..], c)
  }

  ghost predicate LegalRun(x: Sys, trace: seq<Turn>, c: Crypto)
    decreases |trace|
  {
    |trace| > 0 ==> Legal(x, trace[0]) && LegalRun(Apply(x, trace[0], c), trace[1..], c)
  }

  // ---------------------------------------------------------------- what ties the two stores together

  /** The payment of mission b: the first hop, from its creator to its bound destination. */
  predicate IsDeliveryOf(b: string, sequence: int, holder: string, recipient: string, m: MissionStore, p: Protector) {
    && b in m.missions && sequence == 1 && holder == m.missions[b].creator
    && MissionSafety.Target(m.missions[b], p) == Some(recipient)
  }

  predicate IsInvitationOf(m: MissionStore, b: string, id: string) {
    id != "" && exists i :: 0 <= i < |m.invitations| && m.invitations[i].id == id && m.invitations[i].missionId == b
  }

  predicate IntentLinked(b: string, i: PassIntent, m: MissionStore, p: Protector) {
    && i.batonId == b && IsDeliveryOf(b, i.sequence, i.currentHolder, i.recipient, m, p)
    && IsGiven(i.recipientData) && |i.authorizedPaymentWallets| > 0
    && (i.invitationId.Some? ==> IsInvitationOf(m, b, i.invitationId.value))
  }

  /** Before FINAL only the creator can be recorded as holder. */
  predicate HolderLinked(b: string, r: Relay, m: MissionStore)
    requires b in r.holders
  {
    b in m.missions && (IsFinal(r.hops, b, 1) || r.holders[b] == m.missions[b].creator)
  }

  predicate HopLinked(h: Hop, m: MissionStore, p: Protector) {
    IsDeliveryOf(h.batonId, h.sequence, h.currentHolder, h.recipient, m, p) && h.txHash != Some("")
  }

  ghost predicate Linked(r: Relay, m: MissionStore, p: Protector) {
    && (forall b | b in r.intents :: IntentLinked(b, r.intents[b], m, p))
    && (forall b, k | GetHop(r.hops, b, k).Some? :: HopLinked(GetHop(r.hops, b, k).value, m, p))
    && (forall b | b in r.holders :: HolderLinked(b, r, m))
  }

  /** An ARRIVED mission has its FINAL hop in r. */
  predicate ArrivedIn(r: Relay, m: MissionStore) {
    forall id | id in m.missions && m.missions[id].status.ARRIVED? :: IsFinal(r.hops, id, 1)
  }

  ghost predicate Good(r: Relay, m: MissionStore, p: Protector) {
    RelaySafety.Inv(r) && Linked(r, m, p) && ArrivedIn(r, m)
  }

  /** Every snapshot that is in the tables or may still get there is good, and later ones only add. */
  ghost predicate Ready(s: Store, from: nat, m: MissionStore, p: Protector) {
    && from < |s.journal| && s.journal[|s.journal| - 1] == s.relay
    && (forall i | from <= i < |s.journal| :: Good(s.journal[i], m, p))
    && (forall i, k | 0 <= i && k == i + 1 && k < |s.journal| :: Later(s.journal[i], s.journal[k]))
  }

  ghost predicate Durable(db: Tables, s: Relay) {
    forall r | LoadedFrom(db, r) :: SurvivesReload(s, r)
  }

  ghost predicate TablesReady(db: Tables, s: Relay, m: MissionStore, p: Protector) {
    && Fits(db, s) && Durable(db, s)
    && forall b | b in db.passIntents :: IntentLinked(b, db.passIntents[b], m, p)
  }

  ghost predicate SysInv(x: Sys, p: Protector) {
    && MissionSafety.Inv(x.coord.missions, p)
    && Ready(x.coord.store, x.persisted, x.coord.missions, p)
    && TablesReady(x.db, x.coord.store.journal[x.persisted], x.coord.missions, p)
  }

  // ---------------------------------------------------------------- relay mutations

  lemma MutationKeepsSlotsFilled(r: Relay, m: Mutation)
    requires RelaySafety.Inv(r) && RelaySafety.Legal(r, m)
    ensures Later(r, Mutate(r, m))
  {
    forall c, k | GetHop(r.hops, c, k).Some? ensures GetHop(Mutate(r, m).hops, c, k).Some? {
      match m
      case Put(h) => PutThenGet(r.hops, h, c, k);
      case Patch(b, patch) => PutThenGet(r.hops, Patched(GetHop(r.hops, b, r.intents[b].sequence).value, patch), c, k);
      case _ =>
    }
    forall c, k | IsFinal(r.hops, c, k) ensures GetHop(Mutate(r, m).hops, c, k) == GetHop(r.hops, c, k) {
      MutationKeepsFinal(r, m, c, k);
    }
  }

  lemma MutationKeepsLinked(r: Relay, mut: Mutation, m: MissionStore, p: Protector)
    requires RelaySafety.Inv(r) && RelaySafety.Legal(r, mut) && Linked(r, m, p)
    requires mut.Open? ==> IntentLinked(mut.intent.batonId, mut.intent, m, p)
    ensures Linked(Mutate(r, mut), m, p)
  {
    var q := Mutate(r, mut);
    forall c, k | GetHop(q.hops, c, k).Some? ensures HopLinked(GetHop(q.hops, c, k).value, m, p) {
      match mut
      case Put(h) =>
        PutThenGet(r.hops, h, c, k);
        assert IntentLinked(h.batonId, r.intents[h.batonId], m, p);
      case Patch(b, patch) =>
        var prior := GetHop(r.hops, b, r.intents[b].sequence);
        PutThenGet(r.hops, Patched(prior.value, patch), c, k);
        assert HopLinked(prior.value, m, p);
      case _ =>
    }
    forall b | b in q.intents ensures IntentLinked(b, q.intents[b], m, p) {
      if b in r.intents { assert IntentLinked(b, r.intents[b], m, p); }
    }
    MutationKeepsHolders(r, mut, m, p);
  }

  lemma MutationKeepsHolders(r: Relay, mut: Mutation, m: MissionStore, p: Protector)
    requires RelaySafety.Inv(r) && RelaySafety.Legal(r, mut) && Linked(r, m, p)
    requires mut.Open? ==> IntentLinked(mut.intent.batonId, mut.intent, m, p)
    ensures forall b | b in Mutate(r, mut).holders :: HolderLinked(b, Mutate(r, mut), m)
  {
    var q := Mutate(r, mut);
    forall b | b in q.holders ensures HolderLinked(b, q, m) {
      if b in r.holders && IsFinal(r.hops, b, 1) {
        assert HolderLinked(b, r, m);
        MutationKeepsFinal(r, mut, b, 1);
      } else if mut.Patch? && mut.batonId == b {
        var prior := GetHop(r.hops, b, r.intents[b].sequence);
        PutThenGet(r.hops, Patched(prior.value, mut.patch), b, 1);
        assert HopLinked(prior.value, m, p) && IntentLinked(b, r.intents[b], m, p);
        if b in r.holders { assert HolderLinked(b, r, m); }
      } else if b in r.holders {
        assert HolderLinked(b, r, m);
      }
    }
  }

  lemma MutationKeepsGood(r: Relay, mut: Mutation, m: MissionStore, p: Protector)
    requires Good(r, m, p) && RelaySafety.Legal(r, mut)
    requires mut.Open? ==> IntentLinked(mut.intent.batonId, mut.intent, m, p)
    ensures Good(Mutate(r, mut), m, p) && Later(r, Mutate(r, mut))
  {
    MutationKeepsInv(r, mut);
    MutationKeepsSlotsFilled(r, mut);
    MutationKeepsLinked(r, mut, m, p);
  }

  lemma LastIsGood(s: Store, from: nat, m: MissionStore, p: Protector)
    requires Ready(s, from, m, p)
    ensures Good(s.relay, m, p)
  {
    assert Good(s.journal[|s.journal| - 1], m, p);
  }

  lemma JournalStaysGood(journal: seq<Relay>, q: Relay, from: nat, m: MissionStore, p: Protector)
    requires from < |journal| && Good(q, m, p) && forall i | from <= i < |journal| :: Good(journal[i], m, p)
    ensures forall i | from <= i < |journal + [q]| :: Good((journal + [q])[i], m, p)
  {
    forall i | from <= i < |journal + [q]| ensures Good((journal + [q])[i], m, p) {
      if i < |journal| { assert (journal + [q])[i] == journal[i]; } else { assert (journal + [q])[i] == q; }
    }
  }

  lemma JournalStaysChained(journal: seq<Relay>, q: Relay)
    requires |journal| > 0 && Later(journal[|journal| - 1], q)
    requires forall i, k | 0 <= i && k == i + 1 && k < |journal| :: Later(journal[i], journal[k])
    ensures forall i, k | 0 <= i && k == i + 1 && k < |journal + [q]| :: Later((journal + [q])[i], (journal + [q])[k])
  {
    forall i, k | 0 <= i && k == i + 1 && k < |journal + [q]| ensures Later((journal + [q])[i], (journal + [q])[k]) {
      assert (journal + [q])[i] == journal[i];
      if k < |journal| { assert (journal + [q])[k] == journal[k]; } else { assert (journal + [q])[k] == q; }
    }
  }

  lemma GoodExtends(s: Store, q: Relay, from: nat, m: MissionStore, p: Protector)
    requires Ready(s, from, m, p) && Good(q, m, p) && Later(s.relay, q)
    ensures Ready(Commit(s, q), from, m, p)
  {
    JournalStaysGood(s.journal, q, from, m, p);
    JournalStaysChained(s.journal, q);
  }

  lemma CommitKeepsReady(s: Store, from: nat, mut: Mutation, m: MissionStore, p: Protector)
    requires Ready(s, from, m, p) && RelaySafety.Legal(s.relay, mut)
    requires mut.Open? ==> IntentLinked(mut.intent.batonId, mut.intent, m, p)
    ensures Ready(Commit(s, Mutate(s.relay, mut)), from, m, p)
  {
    LastIsGood(s, from, m, p);
    MutationKeepsGood(s.relay, mut, m, p);
    GoodExtends(s, Mutate(s.relay, mut), from, m, p);
  }

  lemma StepKeepsReady(s: Store, q: Relay, b: string, may: May, from: nat, m: MissionStore, p: Protector)
    requires Ready(s, from, m, p) && Step(s.relay, q, b, may) && !may.opens
    ensures Ready(Commit(s, q), from, m, p)
  {
    var mut :| RelaySafety.Legal(s.relay, mut) && BatonOf(mut) == b && Permits(may, mut) && q == Mutate(s.relay, mut);
    CommitKeepsReady(s, from, mut, m, p);
  }

  /** A chain of mutations that opens no intent keeps both live stores in step, snapshot by snapshot. */
  lemma MovesKeepReady(s: Store, t: Store, b: string, may: May, from: nat, m: MissionStore, p: Protector)
    requires Ready(s, from, m, p) && Moves(s, t, b, may) && !may.opens
    ensures Ready(t, from, m, p)
  {
    forall x, q | Ready(x, from, m, p) && Step(x.relay, q, b, may) ensures Ready(Commit(x, q), from, m, p) {
      StepKeepsReady(x, q, b, may, from, m, p);
    }
    MovesKeepStore(s, t, b, may, x => Ready(x, from, m, p));
  }

  /** Once the delivery is FINAL its recorded holder is the destination, so the creator can open nothing more. */
  lemma FinalClosesTheMission(r: Relay, m: MissionStore, b: string, p: Protector)
    requires RelaySafety.Inv(r) && Linked(r, m, p) && MissionSafety.Inv(m, p) && b in m.missions
    ensures CurrentSequence(r.hops, b) == if IsFinal(r.hops, b, 1) then 1 else 0
    ensures IsFinal(r.hops, b, 1) ==> b in r.holders && r.holders[b] == GetHop(r.hops, b, 1).value.recipient
    ensures IsFinal(r.hops, b, 1) ==> b !in r.intents && r.holders[b] != m.missions[b].creator
  {
    CurrentIsHighestFinal(r.hops, b);
    var n := CurrentSequence(r.hops, b);
    SlotHolds(r.hops, b, n);
    assert IsFinal(r.hops, b, n) ==> HopLinked(GetHop(r.hops, b, n).value, m, p);
    assert HolderFollows(r, b);
    assert MissionSafety.MissionOk(b, m.missions[b], p);
    if b in r.intents {
      assert IsNext(r, b, r.intents[b]) && IntentLinked(b, r.intents[b], m, p);
    }
  }

  /** A new intent of an undelivered mission is for its one delivery. */
  lemma NewIntentIsLinked(r: Relay, q: PassRequest, nonce: string, at: int, sha: HopCommitment.Digest, m: MissionStore, p: Protector)
    requires MissionSafety.Inv(m, p) && q.requireOpaqueTag && CurrentSequence(r.hops, q.batonId) == 0
    requires IsDeliveryOf(q.batonId, 1, q.currentHolder, q.recipient, m, p)
    requires q.invitationId.Some? ==> IsInvitationOf(m, q.batonId, q.invitationId.value)
    ensures IntentLinked(q.batonId, NewIntent(r, q, nonce, at, sha), m, p)
  {
    assert MissionSafety.MissionOk(q.batonId, m.missions[q.batonId], p);
    NimiqAddressIsAWallet(q.currentHolder);
  }

  lemma CreatedKeepsReady(s: Store, from: nat, q: PassRequest, nonce: string, at: int, sha: HopCommitment.Digest, m: MissionStore, p: Protector)
    requires Ready(s, from, m, p) && MissionSafety.Inv(m, p) && q.requireOpaqueTag
    requires IsDeliveryOf(q.batonId, 1, q.currentHolder, q.recipient, m, p)
    requires q.invitationId.Some? ==> IsInvitationOf(m, q.batonId, q.invitationId.value)
    ensures Ready(Created(s, q, nonce, at, sha).0, from, m, p)
  {
    if Created(s, q, nonce, at, sha).1.Ok? {
      LastIsGood(s, from, m, p);
      FinalClosesTheMission(s.relay, m, q.batonId, p);
      NewIntentIsLinked(s.relay, q, nonce, at, sha, m, p);
      CommitKeepsReady(s, from, Open(NewIntent(s.relay, q, nonce, at, sha)), m, p);
    }
  }

  // ---------------------------------------------------------------- every event keeps the invariant

  lemma IntentLinkedLater(b: string, i: PassIntent, m: MissionStore, n: MissionStore, p: Protector)
    requires IntentLinked(b, i, m, p) && MissionSafety.Later(m, n)
    ensures IntentLinked(b, i, n, p)
  {
    assert MissionSafety.MissionLater(m.missions[b], n.missions[b]);
    if i.invitationId.Some? {
      var k :| 0 <= k < |m.invitations| && m.invitations[k].id == i.invitationId.value && m.invitations[k].missionId == b;
      assert MissionSafety.InvitationLater(m.invitations[k], n.invitations[k]);
    }
  }

  lemma LinkedLater(r: Relay, m: MissionStore, n: MissionStore, p: Protector)
    requires Linked(r, m, p) && MissionSafety.Later(m, n)
    ensures Linked(r, n, p)
  {
    forall b | b in r.intents ensures IntentLinked(b, r.intents[b], n, p) {
      IntentLinkedLater(b, r.intents[b], m, n, p);
    }
    forall b | b in r.holders ensures HolderLinked(b, r, n) {
      assert HolderLinked(b, r, m) && MissionSafety.MissionLater(m.missions[b], n.missions[b]);
    }
    forall b, k | GetHop(r.hops, b, k).Some? ensures HopLinked(GetHop(r.hops, b, k).value, n, p) {
      var h := GetHop(r.hops, b, k).value;
      assert HopLinked(h, m, p) && MissionSafety.MissionLater(m.missions[h.batonId], n.missions[h.batonId]);
    }
  }

  /** A later mission store fits, as long as what has ARRIVED is FINAL in every snapshot that counts. */
  lemma MissionsMoveOn(x: Sys, n: MissionStore, p: Protector)
    requires SysInv(x, p) && MissionSafety.Inv(n, p) && MissionSafety.Later(x.coord.missions, n)
    requires forall i | x.persisted <= i < |x.coord.store.journal| :: ArrivedIn(x.coord.store.journal[i], n)
    ensures SysInv(WithMissions(x, n), p)
  {
    var m, journal := x.coord.missions, x.coord.store.journal;
    forall i | x.persisted <= i < |journal| ensures Good(journal[i], n, p) {
      assert Good(journal[i], m, p);
      LinkedLater(journal[i], m, n, p);
    }
    forall b | b in x.db.passIntents ensures IntentLinked(b, x.db.passIntents[b], n, p) {
      IntentLinkedLater(b, x.db.passIntents[b], m, n, p);
    }
  }

  lemma OpKeepsSysInv(x: Sys, op: MissionOp, at: int, p: Protector)
    requires SysInv(x, p) && MissionService.IsSound(p) && IsLegal(x.coord.missions, op)
    ensures SysInv(WithMissions(x, ApplyOp(x.coord.missions, x.coord.store.relay, op, at, p)), p)
  {
    var n := ApplyOp(x.coord.missions, x.coord.store.relay, op, at, p);
    OpKeeps(x.coord.missions, x.coord.store.relay, op, at, p);
    forall i | x.persisted <= i < |x.coord.store.journal| ensures ArrivedIn(x.coord.store.journal[i], n) {
      assert Good(x.coord.store.journal[i], x.coord.missions, p);
    }
    MissionsMoveOn(x, n, p);
  }

  lemma StoreMovesOn(x: Sys, t: Store, p: Protector)
    requires SysInv(x, p) && Ready(t, x.persisted, x.coord.missions, p)
    requires |x.coord.store.journal| <= |t.journal| && t.journal[..|x.coord.store.journal|] == x.coord.store.journal
    ensures SysInv(WithStore(x, t), p)
  {
    assert t.journal[x.persisted] == x.coord.store.journal[x.persisted];
  }

  lemma {:induction false} LaterAlongJournal(journal: seq<Relay>, first: nat, last: nat)
    requires forall i, k | 0 <= i && k == i + 1 && k < |journal| :: Later(journal[i], journal[k])
    requires first <= last < |journal|
    ensures Later(journal[first], journal[last])
    decreases last
  {
    if first < last {
      LaterAlongJournal(journal, first, last - 1);
      var i, k := last - 1, last;
      assert Later(journal[i], journal[k]);
      forall c, l | IsFinal(journal[first].hops, c, l) ensures GetHop(journal[last].hops, c, l) == GetHop(journal[first].hops, c, l) {
        assert IsFinal(journal[last - 1].hops, c, l);
      }
    }
  }

  lemma LinkedIsLive(r: Relay, m: MissionStore, p: Protector)
    requires RelaySafety.Inv(r) && Linked(r, m, p)
    ensures MentionsOnly(r, m.missions.Keys) && IsCommitted(r)
  {
    forall b | b in r.intents ensures b in m.missions && r.intents[b].recipientData.Some? && |r.intents[b].authorizedPaymentWallets| > 0 {
      assert IntentLinked(b, r.intents[b], m, p);
    }
    forall b, k | GetHop(r.hops, b, k).Some? ensures b in m.missions {
      SlotHolds(r.hops, b, k);
      assert HopLinked(GetHop(r.hops, b, k).value, m, p);
    }
  }

  lemma FilledIsLinked(b: string, i: PassIntent, m: MissionStore, fill: InvitationLookup, p: Protector)
    requires IntentLinked(b, i, m, p) && IsLookup(fill, m)
    ensures IntentLinked(b, IntentRow(i, fill), m, p)
  {
    if i.invitationId.None? && fill(b, i.sequence).Some? {
      var id := fill(b, i.sequence).value;
      var k :| 0 <= k < |m.invitations| && m.invitations[k].id == id && m.invitations[k].missionId == b;
    }
  }

  /** Every reload of a written snapshot is that snapshot: the missions of the system are all live. */
  lemma WrittenIsDurable(t: Tables, s: Relay, m: MissionStore, fill: InvitationLookup, p: Protector)
    requires Good(s, m, p) && Fits(t, s)
    requires forall b | b in Written(t, s, m.missions.Keys, fill).passIntents :: b in m.missions
    ensures Fits(Written(t, s, m.missions.Keys, fill), s) && Durable(Written(t, s, m.missions.Keys, fill), s)
  {
    var live, db := m.missions.Keys, Written(t, s, m.missions.Keys, fill);
    LinkedIsLive(s, m, p);
    WrittenFits(t, s, live, fill);
    forall r | LoadedFrom(db, r) ensures SurvivesReload(s, r) {
      WriteThenLoad(t, s, live, fill, r);
      forall b, k | GetHop(r.hops, b, k).Some? ensures b in live {
        assert (b, k) in db.hops && GetHop(s.hops, (b, k).0, (b, k).1).Some?;
      }
      SurvivesForAll(s, r, live);
    }
  }

  lemma WrittenIntentsAreLinked(t: Tables, s: Relay, m: MissionStore, fill: InvitationLookup, p: Protector)
    requires Linked(s, m, p) && IsLookup(fill, m) && forall b | b in t.passIntents :: IntentLinked(b, t.passIntents[b], m, p)
    ensures var db := Written(t, s, m.missions.Keys, fill); forall b | b in db.passIntents :: IntentLinked(b, db.passIntents[b], m, p)
  {
    var db := Written(t, s, m.missions.Keys, fill);
    forall b | b in db.passIntents ensures IntentLinked(b, db.passIntents[b], m, p) {
      if b in s.intents { FilledIsLinked(b, s.intents[b], m, fill, p); } else { assert IntentLinked(b, t.passIntents[b], m, p); }
    }
  }

  /** Tables that are ready for an earlier snapshot are ready for a later one after it was written. */
  lemma WritingKeepsTablesReady(t: Tables, before: Relay, s: Relay, m: MissionStore, fill: InvitationLookup, p: Protector)
    requires TablesReady(t, before, m, p) && Good(before, m, p) && Good(s, m, p) && Later(before, s) && IsLookup(fill, m)
    ensures TablesReady(Written(t, s, m.missions.Keys, fill), s, m, p)
  {
    FitsLater(t, before, s);
    WrittenIntentsAreLinked(t, s, m, fill, p);
    WrittenIsDurable(t, s, m, fill, p);
  }

  lemma JournalIsGood(x: Sys, i: nat, p: Protector)
    requires SysInv(x, p) && x.persisted <= i < |x.coord.store.journal|
    ensures Good(x.coord.store.journal[i], x.coord.missions, p) && Later(x.coord.store.journal[x.persisted], x.coord.store.journal[i])
  {
    LaterAlongJournal(x.coord.store.journal, x.persisted, i);
  }

  lemma ReadyFromLater(s: Store, from: nat, i: nat, m: MissionStore, p: Protector)
    requires Ready(s, from, m, p) && from <= i < |s.journal|
    ensures Ready(s, i, m, p)
  {
  }

  lemma PersistKeepsSysInv(x: Sys, i: nat, fill: InvitationLookup, p: Protector)
    requires SysInv(x, p) && x.persisted <= i < |x.coord.store.journal| && IsLookup(fill, x.coord.missions)
    ensures SysInv(Persisted(x, i, fill), p)
  {
    var journal := x.coord.store.journal;
    JournalIsGood(x, x.persisted, p);
    JournalIsGood(x, i, p);
    ReadyFromLater(x.coord.store, x.persisted, i, x.coord.missions, p);
    WritingKeepsTablesReady(x.db, journal[x.persisted], journal[i], x.coord.missions, fill, p);
  }

  lemma FlushKeepsSysInv(x: Sys, ok: bool, fill: InvitationLookup, p: Protector)
    requires SysInv(x, p) && IsLookup(fill, x.coord.missions)
    ensures SysInv(Flushed(x, ok, fill), p)
  {
    LastIsLive(x, p);
    PersistedIsBehind(x, p);
    if ok {
      PersistKeepsSysInv(x, |x.coord.store.journal| - 1, fill, p);
      SameStoresSameInv(Persisted(x, |x.coord.store.journal| - 1, fill), Flushed(x, ok, fill), p);
    } else {
      SameStoresSameInv(x, Flushed(x, ok, fill), p);
    }
  }

  lemma PersistedIsBehind(x: Sys, p: Protector)
    requires SysInv(x, p)
    ensures x.persisted < |x.coord.store.journal|
  {
  }

  /** Any reload of the tables is the snapshot they hold, and is good. */
  lemma ReloadIsGood(x: Sys, s: Relay, r: Relay, p: Protector)
    requires SysInv(x, p) && LoadedFrom(x.db, r) && s == x.coord.store.journal[x.persisted]
    ensures Good(r, x.coord.missions, p) && SurvivesReload(s, r)
  {
    var m := x.coord.missions;
    assert SurvivesReload(s, r) && Good(s, m, p);
    forall b, k | GetHop(r.hops, b, k).Some? ensures HopLinked(GetHop(r.hops, b, k).value, m, p) {
      assert HopLinked(GetHop(s.hops, b, k).value, m, p) && SameHop(GetHop(s.hops, b, k).value, GetHop(r.hops, b, k).value);
    }
    forall id | id in m.missions && m.missions[id].status.ARRIVED? ensures IsFinal(r.hops, id, 1) {
      assert SameHop(GetHop(s.hops, id, 1).value, GetHop(r.hops, id, 1).value);
    }
    forall b | b in r.holders ensures HolderLinked(b, r, m) {
      CurrentIsHighestFinal(r.hops, b);
      SlotHolds(r.hops, b, CurrentSequence(r.hops, b));
      assert HopLinked(GetHop(r.hops, b, CurrentSequence(r.hops, b)).value, m, p);
    }
  }

  lemma CrashKeepsSysInv(x: Sys, r: Relay, p: Protector)
    requires SysInv(x, p) && LoadedFrom(x.db, r)
    ensures SysInv(x.(coord := Coord(x.coord.missions, Store(r, [r]), {}, map[]), sweeps := [], persisted := 0), p)
  {
    ReloadIsGood(x, x.coord.store.journal[x.persisted], r, p);
    LinkedIsLive(r, x.coord.missions, p);
    LoadFits(x.db, r);
    forall again | LoadedFrom(x.db, again) ensures SurvivesReload(r, again) {
      assert SurvivesReload(x.coord.store.journal[x.persisted], again);
      LoadsAgree(x.db, r, again);
    }
  }

  /** A projection is a repository completion for the mission's FINAL first hop, or nothing. */
  lemma ProjectionIsACompletion(m: MissionStore, r: Relay, id: string, now: int, p: Protector, claim: Option<Claim>)
    returns (v: string, wallet: string, at: int)
    requires MissionSafety.Inv(m, p) && RelaySafety.Inv(r)
    ensures var n := Projected(m, r, id, now, p, claim).0;
            n != m ==> IsFinal(r.hops, id, 1) && MissionSafety.IsCompletion(m, n, id, v, wallet, at, p)
  {
    v, wallet, at := "", "", 0;
    var n := Projected(m, r, id, now, p, claim).0;
    if n != m {
      assert MissionSafety.MissionOk(id, m.missions[id], p);
      FinalHopIsTheSlot(r.hops, id, 1);
      var h := FinalHop(r.hops, id, 1).value;
      wallet, at := h.recipient, if h.confirmedAt.Some? then h.confirmedAt.value else now;
      if IsGiven(h.invitationId) {
        v := FindInvitation(m.invitations, h.invitationId.value).value.id;
      }
    }
  }

  lemma CompletionArrivesIn(m: MissionStore, n: MissionStore, r: Relay, id: string)
    requires ArrivedIn(r, m) && IsFinal(r.hops, id, 1) && n.missions.Keys == m.missions.Keys
    requires forall other | other in m.missions && other != id :: n.missions[other] == m.missions[other]
    ensures ArrivedIn(r, n)
  {
  }

  /** A projection can only complete a mission whose first hop is FINAL. */
  lemma ProjectionIsSafe(m: MissionStore, r: Relay, id: string, now: int, p: Protector, claim: Option<Claim>)
    requires MissionSafety.Inv(m, p) && MissionService.IsSound(p) && RelaySafety.Inv(r) && ArrivedIn(r, m)
    ensures var n := Projected(m, r, id, now, p, claim).0;
            MissionSafety.Inv(n, p) && MissionSafety.Later(m, n) && ArrivedIn(r, n)
  {
    var n := Projected(m, r, id, now, p, claim).0;
    var v, wallet, at := ProjectionIsACompletion(m, r, id, now, p, claim);
    if n == m {
      MissionSafety.NothingKeeps(m, p);
    } else {
      MissionSafety.CompletionKeeps(m, n, id, v, wallet, at, p);
      CompletionArrivesIn(m, n, r, id);
    }
  }

  /** With unique slots the history's FINAL entry is the slot itself. */
  lemma {:induction false} FinalHopIsTheSlot(hops: seq<Hop>, id: string, k: int)
    requires SlotsUnique(hops)
    ensures FinalHop(hops, id, k) == if IsFinal(hops, id, k) then GetHop(hops, id, k) else None
  {
    if |hops| > 0 {
      TailKeepsSlots(hops);
      FinalHopIsTheSlot(hops[1..], id, k);
      HeadIsAlone(hops);
    }
  }

  lemma RelayStepKeepsSysInv(x: Sys, t: Store, b: string, may: May, p: Protector)
    requires SysInv(x, p) && Moves(x.coord.store, t, b, may) && !may.opens
    ensures SysInv(WithStore(x, t), p)
  {
    MovesKeepReady(x.coord.store, t, b, may, x.persisted, x.coord.missions, p);
    StoreMovesOn(x, t, p);
  }

  lemma LiveIsGood(x: Sys, p: Protector)
    requires SysInv(x, p)
    ensures Good(x.coord.store.relay, x.coord.missions, p)
  {
    LastIsGood(x.coord.store, x.persisted, x.coord.missions, p);
  }

  lemma LastOfReady(s: Store, from: nat, m: MissionStore, p: Protector)
    requires Ready(s, from, m, p)
    ensures |s.journal| > 0 && s.journal[|s.journal| - 1] == s.relay
  {
  }

  lemma LastIsLive(x: Sys, p: Protector)
    requires SysInv(x, p)
    ensures |x.coord.store.journal| > 0 && x.coord.store.journal[|x.coord.store.journal| - 1] == x.coord.store.relay
  {
    LastOfReady(x.coord.store, x.persisted, x.coord.missions, p);
  }

  lemma ProjectionKeepsSysInv(x: Sys, n: MissionStore, p: Protector)
    requires SysInv(x, p) && x.persisted == |x.coord.store.journal| - 1
    requires MissionSafety.Inv(n, p) && MissionSafety.Later(x.coord.missions, n) && ArrivedIn(x.coord.store.relay, n)
    ensures SysInv(WithMissions(x, n), p)
  {
    var journal := x.coord.store.journal;
    forall i | x.persisted <= i < |journal| ensures ArrivedIn(journal[i], n) {
      assert journal[i] == x.coord.store.relay;
    }
    MissionsMoveOn(x, n, p);
  }

  /** Missions change only after a flush, by projecting from the relay the flush made durable. */
  lemma ProjectionFollowsFlush(m: MissionStore, s: Store, id: string, env: Env, p: Protector)
    ensures var (n, t, _) := MissionReconciled(m, s, id, env, p);
            && t == Reconciled(s, id, env.at, env.first, env.second).0
            && (n != m ==> env.flushed && n == Projected(m, t.relay, id, env.at, p, LatestClaim(m.claims, id)).0)
  {
  }

  lemma ReconcileKeepsSysInv(x: Sys, id: string, env: Env, fill: InvitationLookup, p: Protector)
    requires SysInv(x, p) && MissionService.IsSound(p) && IsLookup(fill, x.coord.missions)
    ensures var (n, t, _) := MissionReconciled(x.coord.missions, x.coord.store, id, env, p);
            SysInv(WithMissions(Flushed(WithStore(x, t), env.flushed, fill), n), p)
  {
    var m, s := x.coord.missions, x.coord.store;
    var (n, t, _) := MissionReconciled(m, s, id, env, p);
    ProjectionFollowsFlush(m, s, id, env, p);
    LiveIsGood(x, p);
    ReconciledMoves(s, id, env.at, env.first, env.second);
    RelayStepKeepsSysInv(x, t, id, May(false, IsStaleAt(s.relay, id, env.at), false), p);
    var y := WithStore(x, t);
    FlushKeepsSysInv(y, env.flushed, fill, p);
    var z := Flushed(y, env.flushed, fill);
    if n == m {
      assert WithMissions(z, n) == z;
    } else {
      LiveIsGood(z, p);
      ProjectionIsSafe(m, t.relay, id, env.at, p, LatestClaim(m.claims, id));
      ProjectionKeepsSysInv(z, n, p);
    }
  }

  /** What authorizing does to the relay: nothing, or a cancellation, a creation, or both. */
  ghost predicate IsAuthorization(s: Store, t: Store, q: PassRequest, nonce: string, at: int, sha: HopCommitment.Digest) {
    || t == s || t == Created(s, q, nonce, at, sha).0
    || t == CancelledPass(s, q.batonId).0 || t == Created(CancelledPass(s, q.batonId).0, q, nonce, at, sha).0
  }

  /** A request that passed every guard is for the mission's one delivery. */
  lemma CheckedIsADelivery(m: MissionStore, r: Relay, q: AuthorizeRequest, at: int, p: Protector)
    requires MissionSafety.Inv(m, p) && PassChecked(m, r, q).Ok?
    ensures q.missionId in m.missions && m.missions[q.missionId].id == q.missionId && MissionSafety.IsBound(m.missions[q.missionId])
    ensures var request := RequestFor(q, MissionSafety.Target(m.missions[q.missionId], p).value, PassChecked(m, r, q).value);
            && IsDeliveryOf(request.batonId, 1, request.currentHolder, request.recipient, m, p)
            && (request.invitationId.Some? ==> IsInvitationOf(m, request.batonId, request.invitationId.value))
  {
    assert MissionSafety.MissionOk(q.missionId, m.missions[q.missionId], p);
    if PassChecked(m, r, q).value.Some? {
      var i := InvitationIndex(m.invitations, q.invitationId.value);
      assert m.invitations[i].id == PassChecked(m, r, q).value.value;
    }
  }

  lemma AuthorizedShape(s: Store, m: MissionStore, q: AuthorizeRequest, nonce: string, at: int, c: Crypto, flushed: bool)
    returns (request: PassRequest)
    requires MissionSafety.Inv(m, c.protector)
    ensures var t := Authorized(m, s, q, nonce, at, c.sha, c.protector, flushed).0;
            t != s ==>
              && PassChecked(m, s.relay, q) == Ok(request.invitationId)
              && IsAuthorization(s, t, request, nonce, at, c.sha) && request.batonId == q.missionId && request.requireOpaqueTag
              && request.currentHolder == q.auth.wallet && request.wallets == q.wallets
              && IsDeliveryOf(request.batonId, 1, request.currentHolder, request.recipient, m, c.protector)
              && (request.invitationId.Some? ==> IsInvitationOf(m, request.batonId, request.invitationId.value))
  {
    var checked := PassChecked(m, s.relay, q);
    request := RequestFor(q, "", None);
    if checked.Ok? {
      CheckedIsADelivery(m, s.relay, q, at, c.protector);
      var target := MissionSafety.Target(m.missions[q.missionId], c.protector);
      request := RequestFor(q, target.value, checked.value);
      CheckedShape(s, m, q, nonce, at, c, flushed, target.value);
    }
  }

  lemma CheckedShape(s: Store, m: MissionStore, q: AuthorizeRequest, nonce: string, at: int, c: Crypto, flushed: bool, target: string)
    requires var checked := PassChecked(m, s.relay, q);
             && checked.Ok? && m.missions[q.missionId].id == q.missionId
             && MissionSafety.Target(m.missions[q.missionId], c.protector) == Some(target)
    ensures var t := Authorized(m, s, q, nonce, at, c.sha, c.protector, flushed).0;
            t != s ==> IsAuthorization(s, t, RequestFor(q, target, PassChecked(m, s.relay, q).value), nonce, at, c.sha)
  {
  }

  lemma AuthorizeKeepsReady(s: Store, from: nat, m: MissionStore, q: AuthorizeRequest, nonce: string, at: int, c: Crypto, flushed: bool)
    requires Ready(s, from, m, c.protector) && MissionSafety.Inv(m, c.protector)
    ensures var t := Authorized(m, s, q, nonce, at, c.sha, c.protector, flushed).0;
            Ready(t, from, m, c.protector) && |s.journal| <= |t.journal| && t.journal[..|s.journal|] == s.journal
  {
    var request := AuthorizedShape(s, m, q, nonce, at, c, flushed);
    var t := Authorized(m, s, q, nonce, at, c.sha, c.protector, flushed).0;
    if t != s {
      AuthorizationExtends(s, t, request, nonce, at, c.sha);
      AuthorizationKeepsReady(s, t, from, request, nonce, at, c.sha, m, c.protector);
    }
  }

  lemma AuthorizationExtends(s: Store, t: Store, q: PassRequest, nonce: string, at: int, sha: HopCommitment.Digest)
    requires IsAuthorization(s, t, q, nonce, at, sha)
    ensures |s.journal| <= |t.journal| && t.journal[..|s.journal|] == s.journal
  {
  }

  lemma AuthorizationKeepsReady(s: Store, t: Store, from: nat, q: PassRequest, nonce: string, at: int, sha: HopCommitment.Digest,
                                m: MissionStore, p: Protector)
    requires Ready(s, from, m, p) && MissionSafety.Inv(m, p) && q.requireOpaqueTag
    requires IsDeliveryOf(q.batonId, 1, q.currentHolder, q.recipient, m, p) && IsAuthorization(s, t, q, nonce, at, sha)
    requires q.invitationId.Some? ==> IsInvitationOf(m, q.batonId, q.invitationId.value)
    ensures Ready(t, from, m, p)
  {
    CancelKeepsReady(s, from, q.batonId, m, p);
    var cancelled := CancelledPass(s, q.batonId).0;
    if t == Created(cancelled, q, nonce, at, sha).0 {
      CreatedKeepsReady(cancelled, from, q, nonce, at, sha, m, p);
    } else if t == Created(s, q, nonce, at, sha).0 {
      CreatedKeepsReady(s, from, q, nonce, at, sha, m, p);
    }
  }

  lemma CancelKeepsReady(s: Store, from: nat, b: string, m: MissionStore, p: Protector)
    requires Ready(s, from, m, p)
    ensures Ready(CancelledPass(s, b).0, from, m, p)
  {
    LastIsGood(s, from, m, p);
    CancelledPassMoves(s, b);
    MovesKeepReady(s, CancelledPass(s, b).0, b, May(false, true, false), from, m, p);
  }

  lemma SameStoresSameInv(x: Sys, y: Sys, p: Protector)
    requires SysInv(x, p) && y.coord.missions == x.coord.missions && y.coord.store == x.coord.store
    requires y.db == x.db && y.persisted == x.persisted
    ensures SysInv(y, p)
  {
  }

  /** One visit of the sweep touches the stores exactly as one reconcile call, or not at all. */
  lemma VisitIsAReconcile(d: Coord, plan: Plan, id: string, env: Env, p: Protector)
    ensures var (e, _) := SweepOne(d, plan, id, env, p);
            var (n, t, _) := MissionReconciled(d.missions, d.store, id, env, p);
            (e.missions == d.missions && e.store == d.store) || (e.missions == n && e.store == t)
  {
  }

  lemma VisitKeepsSysInv(x: Sys, k: nat, id: string, env: Env, fill: InvitationLookup, p: Protector)
    requires SysInv(x, p) && MissionService.IsSound(p) && IsLookup(fill, x.coord.missions)
    ensures var (d, _) := SweepOne(x.coord, PlanOf(x, k), id, env, p);
            SysInv(Flushed(WithStore(x, d.store), env.flushed, fill).(coord := d, sweeps := Visited(x.sweeps, k, id)), p)
  {
    var m, store := x.coord.missions, x.coord.store;
    var (d, _) := SweepOne(x.coord, PlanOf(x, k), id, env, p);
    var y := Flushed(WithStore(x, d.store), env.flushed, fill).(coord := d, sweeps := Visited(x.sweeps, k, id));
    VisitIsAReconcile(x.coord, PlanOf(x, k), id, env, p);
    if d.missions == m && d.store == store {
      assert WithStore(x, store) == x;
      FlushKeepsSysInv(x, env.flushed, fill, p);
      SameStoresSameInv(Flushed(x, env.flushed, fill), y, p);
    } else {
      ReconcileKeepsSysInv(x, id, env, fill, p);
      SameStoresSameInv(WithMissions(Flushed(WithStore(x, d.store), env.flushed, fill), d.missions), y, p);
    }
  }

  /** Recording a hash is safe whenever it happens, whatever its call has checked before. */
  lemma RecordKeepsSysInv(x: Sys, id: string, hash: TxHash, at: int, p: Protector)
    requires SysInv(x, p)
    ensures SysInv(WithStore(x, RecordedBroadcast(x.coord.store, id, hash, at).0), p)
  {
    LiveIsGood(x, p);
    RecordedBroadcastMoves(x.coord.store, id, hash, at);
    RelayStepKeepsSysInv(x, RecordedBroadcast(x.coord.store, id, hash, at).0, id,
                         May(false, IsStaleAt(x.coord.store.relay, id, at), false), p);
  }

  lemma AuthorizeKeepsSysInv(x: Sys, q: AuthorizeRequest, nonce: string, at: int, flushed: bool, c: Crypto)
    requires SysInv(x, c.protector)
    ensures SysInv(WithStore(x, Authorized(x.coord.missions, x.coord.store, q, nonce, at, c.sha, c.protector, flushed).0), c.protector)
  {
    AuthorizeKeepsReady(x.coord.store, x.persisted, x.coord.missions, q, nonce, at, c, flushed);
    StoreMovesOn(x, Authorized(x.coord.missions, x.coord.store, q, nonce, at, c.sha, c.protector, flushed).0, c.protector);
  }

  lemma FreezeKeepsSysInv(x: Sys, id: string, candidates: seq<string>, at: int, rpc: Rpc, p: Protector)
    requires SysInv(x, p)
    ensures SysInv(WithStore(x, FrozenVerified(x.coord.store, id, candidates, at, rpc).0), p)
  {
    LiveIsGood(x, p);
    FrozenVerifiedMoves(x.coord.store, id, candidates, at, rpc);
    RelayStepKeepsSysInv(x, FrozenVerified(x.coord.store, id, candidates, at, rpc).0, id,
                         May(false, IsStaleAt(x.coord.store.relay, id, at), true), p);
  }

  /** The step's store, tables and clock, one by one. */
  lemma ApplyParts(x: Sys, s: Turn, c: Crypto)
    ensures var y := Apply(x, s, c);
            && y.coord == CoordAfter(x, s, c) && y.coord.store == StoreAfter(x, s, c) && y.clock == s.at
            && y.sweeps == SweepsAfter(x, s) && y.calls == CallsAfter(x, s)
            && y.db == WrittenAfter(WithStore(x, StoreAfter(x, s, c)), s, FlushReturns(x, s)).db
            && y.persisted == WrittenAfter(WithStore(x, StoreAfter(x, s, c)), s, FlushReturns(x, s)).persisted
  {
  }

  lemma CrashApplies(x: Sys, s: Turn, c: Crypto)
    requires s.event.Crash?
    ensures var y := Apply(x, s, c);
            y.coord.missions == x.coord.missions && y.coord.store == Store(s.event.reloaded, [s.event.reloaded]) && y.db == x.db && y.persisted == 0
  {
  }

  /** Steps that change the relay store only. */
  predicate IsRelayCall(s: Turn) {
    s.event.Authorize? || s.event.FreezeRails? || s.event.RecordHash?
  }

  lemma AuthorizeCallKeeps(x: Sys, s: Turn, c: Crypto)
    requires SysInv(x, c.protector) && s.event.Authorize?
    ensures SysInv(WithStore(x, StoreAfter(x, s, c)), c.protector)
  {
    var e := s.event;
    assert StoreAfter(x, s, c) == Authorized(x.coord.missions, x.coord.store, e.request, e.nonce, s.at, c.sha, c.protector, e.flushed).0;
    AuthorizeKeepsSysInv(x, e.request, e.nonce, s.at, e.flushed, c);
  }

  lemma FreezeCallKeeps(x: Sys, s: Turn, c: Crypto)
    requires SysInv(x, c.protector) && s.event.FreezeRails?
    ensures SysInv(WithStore(x, StoreAfter(x, s, c)), c.protector)
  {
    var e := s.event;
    assert StoreAfter(x, s, c) == FrozenVerified(x.coord.store, e.id, e.candidates, s.at, e.rpc).0;
    FreezeKeepsSysInv(x, e.id, e.candidates, s.at, e.rpc, c.protector);
  }

  lemma RecordCallKeeps(x: Sys, s: Turn, c: Crypto)
    requires SysInv(x, c.protector) && s.event.RecordHash? && s.event.call < |x.calls|
    ensures SysInv(WithStore(x, StoreAfter(x, s, c)), c.protector)
  {
    var call := x.calls[s.event.call];
    assert StoreAfter(x, s, c) == RecordedBroadcast(x.coord.store, call.id, call.hash, s.at).0;
    RecordKeepsSysInv(x, call.id, call.hash, s.at, c.protector);
  }

  lemma RelayStepKeeps(x: Sys, s: Turn, c: Crypto)
    requires SysInv(x, c.protector) && Legal(x, s) && IsRelayCall(s)
    ensures SysInv(Apply(x, s, c), c.protector)
  {
    var y := WithStore(x, StoreAfter(x, s, c));
    if s.event.Authorize? { AuthorizeCallKeeps(x, s, c); } else if s.event.FreezeRails? { FreezeCallKeeps(x, s, c); } else { RecordCallKeeps(x, s, c); }
    FlushKeepsSysInv(y, FlushReturns(x, s), s.fill, c.protector);
    SameStoresSameInv(Flushed(y, FlushReturns(x, s), s.fill), Apply(x, s, c), c.protector);
  }

  lemma QuietStepKeeps(x: Sys, s: Turn, c: Crypto)
    requires SysInv(x, c.protector) && (s.event.BeginSweep? || s.event.StartBroadcast? || s.event.ReadPath?)
    ensures SysInv(Apply(x, s, c), c.protector)
  {
    SameStoresSameInv(x, Apply(x, s, c), c.protector);
  }

  lemma OpStepKeeps(x: Sys, s: Turn, c: Crypto)
    requires SysInv(x, c.protector) && MissionService.IsSound(c.protector) && Legal(x, s) && s.event.Op?
    ensures SysInv(Apply(x, s, c), c.protector)
  {
    OpKeepsSysInv(x, s.event.op, s.at, c.protector);
    SameStoresSameInv(WithMissions(x, ApplyOp(x.coord.missions, x.coord.store.relay, s.event.op, s.at, c.protector)), Apply(x, s, c), c.protector);
  }

  lemma ReconcileStepKeeps(x: Sys, s: Turn, c: Crypto)
    requires SysInv(x, c.protector) && MissionService.IsSound(c.protector) && Legal(x, s) && s.event.Reconcile?
    ensures SysInv(Apply(x, s, c), c.protector)
  {
    var env := s.event.env;
    var (n, t, _) := MissionReconciled(x.coord.missions, x.coord.store, s.event.id, env, c.protector);
    ReconcileKeepsSysInv(x, s.event.id, env, s.fill, c.protector);
    SameStoresSameInv(WithMissions(Flushed(WithStore(x, t), env.flushed, s.fill), n), Apply(x, s, c), c.protector);
  }

  lemma VisitStepKeeps(x: Sys, s: Turn, c: Crypto)
    requires SysInv(x, c.protector) && MissionService.IsSound(c.protector) && Legal(x, s) && s.event.SweepNext?
    ensures SysInv(Apply(x, s, c), c.protector)
  {
    var (k, id, env) := (s.event.sweep, s.event.id, s.event.env);
    var d := SweepOne(x.coord, PlanOf(x, k), id, env, c.protector).0;
    VisitKeepsSysInv(x, k, id, env, s.fill, c.protector);
    SameStoresSameInv(Flushed(WithStore(x, d.store), env.flushed, s.fill).(coord := d, sweeps := Visited(x.sweeps, k, id)), Apply(x, s, c), c.protector);
  }

  lemma PersistStepKeeps(x: Sys, s: Turn, c: Crypto)
    requires SysInv(x, c.protector) && Legal(x, s) && s.event.Persist?
    ensures SysInv(Apply(x, s, c), c.protector)
  {
    PersistKeepsSysInv(x, s.event.version, s.fill, c.protector);
    SameStoresSameInv(Persisted(x, s.event.version, s.fill), Apply(x, s, c), c.protector);
  }

  lemma CrashStepKeeps(x: Sys, s: Turn, c: Crypto)
    requires SysInv(x, c.protector) && Legal(x, s) && s.event.Crash?
    ensures SysInv(Apply(x, s, c), c.protector)
  {
    var r := s.event.reloaded;
    CrashKeepsSysInv(x, r, c.protector);
    SameStoresSameInv(x.(coord := Coord(x.coord.missions, Store(r, [r]), {}, map[]), sweeps := [], persisted := 0), Apply(x, s, c), c.protector);
  }

  /** Every legal step keeps both live stores, the pending snapshots and the tables in step. */
  lemma ApplyKeepsSysInv(x: Sys, s: Turn, c: Crypto)
    requires SysInv(x, c.protector) && MissionService.IsSound(c.protector) && Legal(x, s)
    ensures SysInv(Apply(x, s, c), c.protector)
  {
    if s.event.Op? { OpStepKeeps(x, s, c); }
    else if s.event.Reconcile? { ReconcileStepKeeps(x, s, c); }
    else if s.event.SweepNext? { VisitStepKeeps(x, s, c); }
    else if s.event.Persist? { PersistStepKeeps(x, s, c); }
    else if s.event.Crash? { CrashStepKeeps(x, s, c); }
    else if IsRelayCall(s) { RelayStepKeeps(x, s, c); }
    else { QuietStepKeeps(x, s, c); }
  }

  lemma {:induction false} RunInduction(x: Sys, trace: seq<Turn>, c: Crypto, log: seq<Turn>, P: (Sys, seq<Turn>) -> bool)
    requires LegalRun(x, trace, c) && P(x, log)
    requires forall y, l, t | Legal(y, t) && P(y, l) :: P(Apply(y, t, c), l + [t])
    ensures P(Run(x, trace, c), log + trace)
    decreases |trace|
  {
    if |trace| == 0 {
      assert log + trace == log;
    } else {
      var more := log + [trace[0]];
      assert more + trace[1..] == log + trace;
      RunInduction(Apply(x, trace[0], c), trace[1..], c, more, P);
    }
  }

  /** A property of the state and the steps so far that every legal step keeps holds after every legal run. */
  lemma RunKeeps(x: Sys, trace: seq<Turn>, c: Crypto, log: seq<Turn>, P: (Sys, seq<Turn>) -> bool)
    requires SysInv(x, c.protector) && MissionService.IsSound(c.protector) && LegalRun(x, trace, c) && P(x, log)
    requires forall y, l, t | SysInv(y, c.protector) && Legal(y, t) && P(y, l) :: P(Apply(y, t, c), l + [t])
    ensures SysInv(Run(x, trace, c), c.protector) && P(Run(x, trace, c), log + trace)
  {
    forall y, l: seq<Turn>, t | Legal(y, t) && SysInv(y, c.protector) && P(y, l)
      ensures SysInv(Apply(y, t, c), c.protector) && P(Apply(y, t, c), l + [t])
    {
      ApplyKeepsSysInv(y, t, c);
    }
    RunInduction(x, trace, c, log, (y, l) => SysInv(y, c.protector) && P(y, l));
  }

  lemma RunKeepsSysInv(x: Sys, trace: seq<Turn>, c: Crypto)
    requires SysInv(x, c.protector) && MissionService.IsSound(c.protector) && LegalRun(x, trace, c)
    ensures SysInv(Run(x, trace, c), c.protector)
  {
    RunKeeps(x, trace, c, [], (y, l) => true);
  }

  lemma StartIsReady(p: Protector)
    ensures SysInv(START, p)
  {
    assert forall b, k :: GetHop([], b, k) == None;
    assert forall b :: CurrentSequence([], b) == 0;
    forall r | LoadedFrom(NO_TABLES, r) ensures SurvivesReload(EMPTY, r) {
      EmptyLoadIsEmpty(r);
    }
  }

  lemma EmptyLoadIsEmpty(r: Relay)
    requires LoadedFrom(NO_TABLES, r)
    ensures r == EMPTY
  {
    FirstHopHasASlot(r.hops);
    assert r.hops == [];
    assert r.intents.Keys == {} && r.holders.Keys == {};
  }

  lemma FirstHopHasASlot(hops: seq<Hop>)
    ensures |hops| > 0 ==> GetHop(hops, hops[0].batonId, hops[0].sequence).Some?
  {
  }

  /** Every state the mission surface can reach, crashes included, keeps both stores, the pending writes and the tables in step. */
  lemma ReachableStatesAreInStep(trace: seq<Turn>, c: Crypto)
    requires MissionService.IsSound(c.protector) && LegalRun(START, trace, c)
    ensures SysInv(Run(START, trace, c), c.protector)
  {
    StartIsReady(c.protector);
    RunKeepsSysInv(START, trace, c);
  }

  function FirstLookup(m: MissionStore): InvitationLookup {
    (b: string, k: int) => var v := InvitationForSequence(m, b, k); if v.Some? then Some(v.value.id) else None
  }

  /** The lookup always has an answer the tables could give, so no legal step is ruled out by it. */
  lemma LookupExists(m: MissionStore, p: Protector)
    requires MissionSafety.Inv(m, p)
    ensures IsLookup(FirstLookup(m), m)
  {
    forall b, k | FirstLookup(m)(b, k).Some?
      ensures var id := FirstLookup(m)(b, k).value;
              id != "" && exists i :: 0 <= i < |m.invitations| && m.invitations[i].id == id
                                      && m.invitations[i].missionId == b && m.invitations[i].sequence == k
    {
      var v := InvitationForSequence(m, b, k).value;
      var i :| 0 <= i < |m.invitations| && m.invitations[i] == v;
    }
  }
}
