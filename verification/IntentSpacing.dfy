/** Two payments of one mission are never authorized within one validity window of each other. */
module IntentSpacing {
  import opened Domain
  import opened Relay
  import opened RelayService
  import opened RelaySafety
  import opened RelayRuns
  import opened PgRelayTables
  import opened Missions
  import opened MissionService
  import MissionSafety
  import opened Coordinator
  import opened System
  import opened Delivery
  import HopCommitment
  import Policy

  /** The same authorization: frozen rails may have been added at the end, and a reload may have filled the invitation. */
  predicate Continues(kept: PassIntent, i: PassIntent) {
    && i == kept.(invitationId := i.invitationId, authorizedPaymentWallets := i.authorizedPaymentWallets)
    && (kept.invitationId.Some? ==> i.invitationId == kept.invitationId)
    && IsStart(kept.authorizedPaymentWallets, i.authorizedPaymentWallets)
  }

  predicate IsStart(short: seq<string>, long: seq<string>) {
    |short| <= |long| && long[..|short|] == short
  }

  /** The intent is still there with every source it had, or the delivery is FINAL. */
  predicate Held(r: Relay, b: string, kept: PassIntent) {
    (b in r.intents && Continues(kept, r.intents[b]) && kept.sequence == 1) || IsFinal(r.hops, b, 1)
  }

  lemma MutationKeepsHeld(r: Relay, m: Mutation, b: string, kept: PassIntent)
    requires RelaySafety.Inv(r) && RelaySafety.Legal(r, m) && Held(r, b, kept)
    requires BatonOf(m) == b ==> Permits(May(false, false, true), m)
    ensures Held(Mutate(r, m), b, kept)
  {
    if IsFinal(r.hops, b, 1) {
      MutationKeepsFinal(r, m, b, 1);
    } else if m.Patch? && m.batonId == b {
      var h := Patched(GetHop(r.hops, b, 1).value, m.patch);
      PutThenGet(r.hops, h, b, 1);
    }
  }

  /** Operations of other missions, and those that may not give an intent up, keep it held in every snapshot. */
  lemma MovesKeepHeld(s: Store, t: Store, c: string, may: May, b: string, kept: PassIntent)
    requires RelaySafety.Inv(s.relay) && Moves(s, t, c, may) && Held(s.relay, b, kept)
    requires c == b ==> !may.opens && !may.closes
    ensures Held(t.relay, b, kept) && forall i | |s.journal| <= i < |t.journal| :: Held(t.journal[i], b, kept)
  {
    forall x, y | (RelaySafety.Inv(x) && Held(x, b, kept)) && Step(x, y, c, may) ensures RelaySafety.Inv(y) && Held(y, b, kept) {
      var m :| RelaySafety.Legal(x, m) && BatonOf(m) == c && Permits(may, m) && y == Mutate(x, m);
      MutationKeepsInv(x, m);
      MutationKeepsHeld(x, m, b, kept);
    }
    MovesKeep(s, t, c, may, x => RelaySafety.Inv(x) && Held(x, b, kept));
  }

  /** Every snapshot from an index on holds the intent. */
  predicate HeldFrom(s: Store, from: nat, b: string, kept: PassIntent) {
    Held(s.relay, b, kept) && forall i | from <= i < |s.journal| :: Held(s.journal[i], b, kept)
  }

  lemma MovesKeepHeldFrom(s: Store, t: Store, c: string, may: May, from: nat, b: string, kept: PassIntent)
    requires RelaySafety.Inv(s.relay) && Moves(s, t, c, may) && HeldFrom(s, from, b, kept)
    requires c == b ==> !may.opens && !may.closes
    ensures HeldFrom(t, from, b, kept)
  {
    MovesKeepHeld(s, t, c, may, b, kept);
    forall i | from <= i < |t.journal| ensures Held(t.journal[i], b, kept) {
      assert i < |s.journal| ==> t.journal[i] == s.journal[i];
    }
  }

  /** An open intent inside its window answers, conflicts or lies behind a failing guard; it is never replaced. */
  lemma OpenIntentStays(m: MissionStore, s: Store, q: AuthorizeRequest, nonce: string, at: int, c: Crypto, flushed: bool)
    requires q.missionId in m.missions ==> MissionSafety.MissionOk(q.missionId, m.missions[q.missionId], c.protector)
    requires q.missionId in s.relay.intents && !IsStale(s.relay.intents[q.missionId], q.now)
    ensures Authorized(m, s, q, nonce, at, c.sha, c.protector, flushed).0 == s
  {
  }

  /** A held intent that is not stale, or a FINAL delivery, makes authorizing its mission a no-op. */
  lemma HeldIsAuthorizedAsIs(x: Sys, s: Turn, c: Crypto, b: string, kept: PassIntent)
    requires SysInv(x, c.protector) && System.Legal(x, s) && s.event.Authorize? && s.at - kept.createdAt <= Policy.INTENT_VALIDITY_WINDOW_MS
    requires Held(x.coord.store.relay, b, kept) && s.event.request.missionId == b
    ensures Authorized(x.coord.missions, x.coord.store, s.event.request, s.event.nonce, s.at, c.sha, c.protector, s.event.flushed).0 == x.coord.store
  {
    var q := s.event.request;
    if IsFinal(x.coord.store.relay.hops, b, 1) {
      NothingOpensAfterFinal(x, q, s.event.nonce, s.at, c, s.event.flushed);
    } else {
      OpenIntentStays(x.coord.missions, x.coord.store, q, s.event.nonce, s.at, c, s.event.flushed);
    }
  }

  lemma AuthorizeKeepsHeldFrom(x: Sys, s: Turn, c: Crypto, from: nat, b: string, kept: PassIntent)
    requires SysInv(x, c.protector) && System.Legal(x, s) && s.event.Authorize? && s.at - kept.createdAt <= Policy.INTENT_VALIDITY_WINDOW_MS
    requires HeldFrom(x.coord.store, from, b, kept)
    ensures var t := Authorized(x.coord.missions, x.coord.store, s.event.request, s.event.nonce, s.at, c.sha, c.protector, s.event.flushed).0;
            HeldFrom(t, from, b, kept) && (s.event.request.missionId == b ==> t == x.coord.store)
  {
    if s.event.request.missionId == b {
      HeldIsAuthorizedAsIs(x, s, c, b, kept);
    } else {
      LiveIsValid(x, c.protector);
      AuthorizingOthersKeepsHeldFrom(x.coord.missions, x.coord.store, s, c, from, b, kept);
    }
  }

  lemma AuthorizingOthersKeepsHeldFrom(m: MissionStore, store: Store, s: Turn, c: Crypto, from: nat, b: string, kept: PassIntent)
    requires RelaySafety.Inv(store.relay) && MissionSafety.Inv(m, c.protector) && s.event.Authorize? && s.event.request.missionId != b
    requires HeldFrom(store, from, b, kept)
    ensures HeldFrom(Authorized(m, store, s.event.request, s.event.nonce, s.at, c.sha, c.protector, s.event.flushed).0, from, b, kept)
  {
    var q, nonce, flushed := s.event.request, s.event.nonce, s.event.flushed;
    var request := AuthorizedShape(store, m, q, nonce, s.at, c, flushed);
    var t := Authorized(m, store, q, nonce, s.at, c.sha, c.protector, flushed).0;
    if t != store { AuthorizationKeepsHeldFrom(store, t, request, nonce, s.at, c, from, b, kept); }
  }

  lemma AuthorizationKeepsHeldFrom(s: Store, t: Store, q: PassRequest, nonce: string, at: int, c: Crypto, from: nat, b: string, kept: PassIntent)
    requires RelaySafety.Inv(s.relay) && IsAuthorization(s, t, q, nonce, at, c.sha) && q.batonId != b && HeldFrom(s, from, b, kept)
    ensures HeldFrom(t, from, b, kept)
  {
    CancelledPassMoves(s, q.batonId);
    var cancelled := CancelledPass(s, q.batonId).0;
    MovesKeepHeldFrom(s, cancelled, q.batonId, May(false, true, false), from, b, kept);
    CreatedMoves(s, q, nonce, at, c.sha);
    CreatedMoves(cancelled, q, nonce, at, c.sha);
    MovesKeepHeldFrom(s, Created(s, q, nonce, at, c.sha).0, q.batonId, May(true, false, false), from, b, kept);
    MovesKeepHeldFrom(cancelled, Created(cancelled, q, nonce, at, c.sha).0, q.batonId, May(true, false, false), from, b, kept);
  }

  lemma ReconcileKeepsHeldFrom(s: Store, id: string, env: Env, from: nat, b: string, kept: PassIntent)
    requires RelaySafety.Inv(s.relay) && HeldFrom(s, from, b, kept) && !IsStaleAt(s.relay, b, env.at)
    ensures HeldFrom(Reconciled(s, id, env.at, env.first, env.second).0, from, b, kept)
  {
    ReconciledMoves(s, id, env.at, env.first, env.second);
    var t := Reconciled(s, id, env.at, env.first, env.second).0;
    MovesKeepHeldFrom(s, t, id, May(false, IsStaleAt(s.relay, id, env.at), false), from, b, kept);
  }

  lemma FreezeKeepsHeldFrom(s: Store, id: string, candidates: seq<string>, at: int, rpc: Rpc, from: nat, b: string, kept: PassIntent)
    requires RelaySafety.Inv(s.relay) && HeldFrom(s, from, b, kept) && !IsStaleAt(s.relay, b, at)
    ensures HeldFrom(FrozenVerified(s, id, candidates, at, rpc).0, from, b, kept)
  {
    FrozenVerifiedMoves(s, id, candidates, at, rpc);
    MovesKeepHeldFrom(s, FrozenVerified(s, id, candidates, at, rpc).0, id, May(false, IsStaleAt(s.relay, id, at), true), from, b, kept);
  }

  lemma RecordKeepsHeldFrom(s: Store, id: string, hash: TxHash, at: int, from: nat, b: string, kept: PassIntent)
    requires RelaySafety.Inv(s.relay) && HeldFrom(s, from, b, kept) && !IsStaleAt(s.relay, b, at)
    ensures HeldFrom(RecordedBroadcast(s, id, hash, at).0, from, b, kept)
  {
    RecordedBroadcastMoves(s, id, hash, at);
    MovesKeepHeldFrom(s, RecordedBroadcast(s, id, hash, at).0, id, May(false, IsStaleAt(s.relay, id, at), false), from, b, kept);
  }

  lemma HeldIsNotStale(x: Sys, b: string, kept: PassIntent, at: int, p: Protector)
    requires SysInv(x, p) && Held(x.coord.store.relay, b, kept) && at - kept.createdAt <= Policy.INTENT_VALIDITY_WINDOW_MS
    ensures !IsStaleAt(x.coord.store.relay, b, at)
  {
    LiveIsGood(x, p);
    if b in x.coord.store.relay.intents {
      assert IntentLinked(b, x.coord.store.relay.intents[b], x.coord.missions, p);
      FinalClosesTheMission(x.coord.store.relay, x.coord.missions, b, p);
    }
  }

  lemma QuietStoreKeepsHeldFrom(x: Sys, s: Turn, c: Crypto, from: nat, b: string, kept: PassIntent)
    requires RelaySafety.Inv(x.coord.store.relay) && HeldFrom(x.coord.store, from, b, kept) && !IsStaleAt(x.coord.store.relay, b, s.at)
    requires !s.event.Crash? && !s.event.Authorize? && System.Legal(x, s)
    ensures HeldFrom(StoreAfter(x, s, c), from, b, kept)
  {
    var m, store := x.coord.missions, x.coord.store;
    match s.event
    case FreezeRails(id, candidates, rpc, _) => FreezeKeepsHeldFrom(store, id, candidates, s.at, rpc, from, b, kept);
    case RecordHash(k, _) => RecordKeepsHeldFrom(store, x.calls[k].id, x.calls[k].hash, s.at, from, b, kept);
    case Reconcile(id, env) =>
      ProjectionFollowsFlush(m, store, id, env, c.protector);
      ReconcileKeepsHeldFrom(store, id, env, from, b, kept);
    case SweepNext(k, id, env) =>
      VisitIsAReconcile(x.coord, PlanOf(x, k), id, env, c.protector);
      ProjectionFollowsFlush(m, store, id, env, c.protector);
      ReconcileKeepsHeldFrom(store, id, env, from, b, kept);
    case _ =>
  }

  /** Within the window no step but a crash loses the intent. */
  lemma StoreKeepsHeldFrom(x: Sys, s: Turn, c: Crypto, from: nat, b: string, kept: PassIntent)
    requires SysInv(x, c.protector) && System.Legal(x, s) && !s.event.Crash?
    requires HeldFrom(x.coord.store, from, b, kept) && s.at - kept.createdAt <= Policy.INTENT_VALIDITY_WINDOW_MS
    ensures HeldFrom(StoreAfter(x, s, c), from, b, kept)
  {
    if s.event.Authorize? {
      AuthorizeKeepsHeldFrom(x, s, c, from, b, kept);
    } else {
      LiveIsValid(x, c.protector);
      HeldIsNotStale(x, b, kept, s.at, c.protector);
      QuietStoreKeepsHeldFrom(x, s, c, from, b, kept);
    }
  }

  lemma ReloadKeepsHeld(s: Relay, r: Relay, b: string, kept: PassIntent)
    requires SurvivesReload(s, r) && Held(s, b, kept)
    ensures Held(r, b, kept)
  {
    if IsFinal(s.hops, b, 1) {
      assert SameHop(GetHop(s.hops, b, 1).value, GetHop(r.hops, b, 1).value);
    }
  }

  predicate NoCrash(trace: seq<Turn>) {
    forall i | 0 <= i < |trace| :: !trace[i].event.Crash?
  }

  predicate Expired(x: Sys, kept: PassIntent) {
    x.clock - kept.createdAt > Policy.INTENT_VALIDITY_WINDOW_MS
  }

  /** Through any run, the intent is held or its window is over; with crashes in the run it must have been flushed. */
  lemma {:induction false} RunKeepsHeld(x: Sys, trace: seq<Turn>, c: Crypto, from: nat, b: string, kept: PassIntent)
    requires SysInv(x, c.protector) && IsSound(c.protector) && LegalRun(x, trace, c)
    requires Expired(x, kept) || HeldFrom(x.coord.store, from, b, kept)
    requires from <= x.persisted || NoCrash(trace)
    ensures Expired(Run(x, trace, c), kept) || Held(Run(x, trace, c).coord.store.relay, b, kept)
    decreases |trace|
  {
    if |trace| > 0 {
      ApplyKeepsSysInv(x, trace[0], c);
      StepKeepsHeld(x, trace[0], c, from, b, kept);
      RunKeepsHeld(Apply(x, trace[0], c), trace[1..], c, FromAfter(trace[0], from), b, kept);
    }
  }

  function FromAfter(s: Turn, from: nat): nat {
    if s.event.Crash? then 0 else from
  }

  lemma StepKeepsHeld(x: Sys, s: Turn, c: Crypto, from: nat, b: string, kept: PassIntent)
    requires SysInv(x, c.protector) && System.Legal(x, s)
    requires Expired(x, kept) || HeldFrom(x.coord.store, from, b, kept)
    requires from <= x.persisted || !s.event.Crash?
    ensures var y := Apply(x, s, c);
            && (Expired(y, kept) || HeldFrom(y.coord.store, FromAfter(s, from), b, kept))
            && (from <= x.persisted ==> FromAfter(s, from) <= y.persisted)
  {
    if s.event.Crash? {
      CrashStepKeepsHeld(x, s, c, from, b, kept);
    } else {
      QuietStepKeepsHeld(x, s, c, from, b, kept);
    }
  }

  lemma CrashStepKeepsHeld(x: Sys, s: Turn, c: Crypto, from: nat, b: string, kept: PassIntent)
    requires SysInv(x, c.protector) && System.Legal(x, s) && s.event.Crash? && from <= x.persisted
    requires Expired(x, kept) || HeldFrom(x.coord.store, from, b, kept)
    ensures var y := Apply(x, s, c); Expired(y, kept) || HeldFrom(y.coord.store, 0, b, kept)
  {
    if !Expired(x, kept) {
      CrashKeepsHeld(x, s.event.reloaded, b, kept, from, c.protector);
      HeldAlone(s.event.reloaded, b, kept);
    }
  }

  lemma HeldAlone(r: Relay, b: string, kept: PassIntent)
    requires Held(r, b, kept)
    ensures HeldFrom(Store(r, [r]), 0, b, kept)
  {
  }

  lemma QuietStepKeepsHeld(x: Sys, s: Turn, c: Crypto, from: nat, b: string, kept: PassIntent)
    requires SysInv(x, c.protector) && System.Legal(x, s) && !s.event.Crash?
    requires Expired(x, kept) || HeldFrom(x.coord.store, from, b, kept)
    ensures var y := Apply(x, s, c); (Expired(y, kept) || HeldFrom(y.coord.store, from, b, kept)) && x.persisted <= y.persisted
  {
    ApplyExtendsJournal(x, s, c);
    ApplyParts(x, s, c);
    if s.at - kept.createdAt <= Policy.INTENT_VALIDITY_WINDOW_MS { StoreKeepsHeldFrom(x, s, c, from, b, kept); }
  }

  lemma CrashKeepsHeld(x: Sys, r: Relay, b: string, kept: PassIntent, from: nat, p: Protector)
    requires SysInv(x, p) && LoadedFrom(x.db, r) && HeldFrom(x.coord.store, from, b, kept) && from <= x.persisted
    ensures Held(r, b, kept)
  {
    var s := x.coord.store.journal[x.persisted];
    assert Held(s, b, kept);
    ReloadIsGood(x, s, r, p);
    ReloadKeepsHeld(s, r, b, kept);
  }

  /** Authorizing leaves the mission with an intent it did not have before. */
  predicate Opens(x: Sys, s: Turn, c: Crypto, b: string) {
    && s.event.Authorize? && s.event.request.missionId == b
    && var was, now := x.coord.store.relay.intents, StoreAfter(x, s, c).relay.intents;
       b in now && (b in was ==> now[b] != was[b])
  }

  lemma NewestIsHeld(y: Sys, b: string, p: Protector)
    requires SysInv(y, p) && b in y.coord.store.relay.intents
    ensures |y.coord.store.journal| > 0 && HeldFrom(y.coord.store, |y.coord.store.journal| - 1, b, y.coord.store.relay.intents[b])
  {
    NewestOfReady(y.coord.store, y.persisted, y.coord.missions, b, p);
  }

  lemma NewestOfReady(s: Store, from: nat, m: MissionStore, b: string, p: Protector)
    requires Ready(s, from, m, p) && b in s.relay.intents
    ensures HeldFrom(s, |s.journal| - 1, b, s.relay.intents[b])
  {
    LastIsGood(s, from, m, p);
    assert IntentLinked(b, s.relay.intents[b], m, p);
  }

  lemma OpenedNow(x: Sys, s: Turn, c: Crypto, b: string)
    requires MissionSafety.Inv(x.coord.missions, c.protector) && Opens(x, s, c, b)
    ensures StoreAfter(x, s, c).relay.intents[b].createdAt == s.at
  {
    var request := AuthorizedShape(x.coord.store, x.coord.missions, s.event.request, s.event.nonce, s.at, c, s.event.flushed);
    CreatedIsDated(x.coord.store, StoreAfter(x, s, c), request, s.event.nonce, s.at, c.sha, b);
  }

  lemma CreatedIsDated(s: Store, t: Store, q: PassRequest, nonce: string, at: int, sha: HopCommitment.Digest, b: string)
    requires IsAuthorization(s, t, q, nonce, at, sha) && q.batonId == b
    requires b in t.relay.intents && (b in s.relay.intents ==> t.relay.intents[b] != s.relay.intents[b])
    ensures t.relay.intents[b].createdAt == at
  {
  }

  /**
   * Two intents of one mission are opened more than a validity window apart, whatever happens in between. Take any
   * authorization that leaves the mission with an intent, a renewed answer for an earlier one included: a later one opens
   * another intent only when the window of that one is over, and no block can include its payment any more. If the process
   * may crash in between, the first answer must have been flushed.
   */
  lemma IntentsAreSpaced(x: Sys, first: Turn, trace: seq<Turn>, second: Turn, c: Crypto, b: string)
    requires SysInv(x, c.protector) && IsSound(c.protector) && System.Legal(x, first) && first.event.Authorize?
    requires b in Apply(x, first, c).coord.store.relay.intents
    requires LegalRun(Apply(x, first, c), trace, c) && (first.event.flushed || NoCrash(trace))
    requires var z := Run(Apply(x, first, c), trace, c); System.Legal(z, second) && Opens(z, second, c, b)
    ensures second.at - Apply(x, first, c).coord.store.relay.intents[b].createdAt > Policy.INTENT_VALIDITY_WINDOW_MS
            >= Policy.NIMIQ_POLICY.transactionValidityWindowBlocks * Policy.NIMIQ_POLICY.blockSeparationTimeMs
    ensures Opens(x, first, c, b) ==> second.at - first.at > Policy.INTENT_VALIDITY_WINDOW_MS
  {
    var y := Apply(x, first, c);
    ApplyKeepsSysInv(x, first, c);
    NewestIsHeld(y, b, c.protector);
    if first.event.flushed { FlushPersistsAll(x, first, c); }
    NextOpensLater(y, |y.coord.store.journal| - 1, trace, second, c, b, y.coord.store.relay.intents[b]);
    if Opens(x, first, c, b) { OpenedIsNew(x, first, c, b); }
    Policy.WindowCoversTransactionValidity(Policy.DEFAULT_SAFETY_BUFFER_MS, Policy.NIMIQ_POLICY);
  }

  lemma OpenedIsNew(x: Sys, s: Turn, c: Crypto, b: string)
    requires SysInv(x, c.protector) && Opens(x, s, c, b)
    ensures var intents := Apply(x, s, c).coord.store.relay.intents; b in intents && intents[b].createdAt == s.at
  {
    OpenedNow(x, s, c, b);
    ApplyParts(x, s, c);
  }

  /** A returned flush leaves nothing to persist. */
  lemma FlushPersistsAll(x: Sys, s: Turn, c: Crypto)
    requires SysInv(x, c.protector) && System.Legal(x, s) && FlushReturns(x, s)
    ensures var y := Apply(x, s, c); y.persisted == |y.coord.store.journal| - 1
  {
    ApplyExtendsJournal(x, s, c);
    ApplyParts(x, s, c);
    LastWritten(WithStore(x, StoreAfter(x, s, c)), s);
  }

  lemma LastWritten(y: Sys, s: Turn)
    requires |y.coord.store.journal| > 0 && !s.event.Persist? && !s.event.Crash?
    ensures WrittenAfter(y, s, true).persisted == |y.coord.store.journal| - 1
  {
  }

  lemma NextOpensLater(y: Sys, from: nat, trace: seq<Turn>, second: Turn, c: Crypto, b: string, kept: PassIntent)
    requires SysInv(y, c.protector) && IsSound(c.protector) && LegalRun(y, trace, c) && HeldFrom(y.coord.store, from, b, kept)
    requires from <= y.persisted || NoCrash(trace)
    requires var z := Run(y, trace, c); System.Legal(z, second) && Opens(z, second, c, b)
    ensures second.at - kept.createdAt > Policy.INTENT_VALIDITY_WINDOW_MS
  {
    RunKeepsSysInv(y, trace, c);
    RunKeepsHeld(y, trace, c, from, b, kept);
    var z := Run(y, trace, c);
    if second.at - kept.createdAt <= Policy.INTENT_VALIDITY_WINDOW_MS {
      HeldBlocksOpening(z, second, c, b, kept);
    }
  }

  lemma HeldBlocksOpening(z: Sys, s: Turn, c: Crypto, b: string, kept: PassIntent)
    requires SysInv(z, c.protector) && System.Legal(z, s) && Held(z.coord.store.relay, b, kept)
    requires s.at - kept.createdAt <= Policy.INTENT_VALIDITY_WINDOW_MS
    ensures !Opens(z, s, c, b)
  {
    if s.event.Authorize? && s.event.request.missionId == b { HeldIsAuthorizedAsIs(z, s, c, b, kept); }
  }

  // ---------------------------------------------------------------- frozen rails

  lemma AcknowledgedFreeze(s: Store, id: string, candidates: seq<string>, at: int, rpc: Rpc, flushed: bool)
    requires FrozenDurably(s, id, candidates, at, rpc, flushed).1.Ok?
    ensures var (t, res) := FrozenDurably(s, id, candidates, at, rpc, flushed);
            flushed && id in t.relay.intents && t.relay.intents[id] == res.value && t == FrozenVerified(s, id, candidates, at, rpc).0
  {
  }

  /**
   * An acknowledged freeze is durable: every reload of the tables has the intent with exactly the answered sources, and
   * through every run, crashes included, it keeps them until its window is over or its delivery is FINAL.
   */
  lemma FrozenRailsAreKept(x: Sys, t: Turn, trace: seq<Turn>, c: Crypto, r: Relay)
    requires SysInv(x, c.protector) && IsSound(c.protector) && System.Legal(x, t) && t.event.FreezeRails? && FlushReturns(x, t)
    requires LegalRun(Apply(x, t, c), trace, c) && LoadedFrom(Apply(x, t, c).db, r)
    ensures var e := t.event;
            var i := FrozenDurably(x.coord.store, e.id, e.candidates, t.at, e.rpc, e.flushed).1.value;
            var z := Run(Apply(x, t, c), trace, c);
            && e.id in r.intents && Continues(i, r.intents[e.id]) && r.intents[e.id].authorizedPaymentWallets == i.authorizedPaymentWallets
            && (Expired(z, i) || Held(z.coord.store.relay, e.id, i))
  {
    var e, y := t.event, Apply(x, t, c);
    AcknowledgedFreeze(x.coord.store, e.id, e.candidates, t.at, e.rpc, e.flushed);
    ApplyKeepsSysInv(x, t, c);
    ApplyParts(x, t, c);
    FlushPersistsAll(x, t, c);
    NewestIsHeld(y, e.id, c.protector);
    ReloadedIsTheLast(y, r, e.id, c.protector);
    RunKeepsHeld(y, trace, c, y.persisted, e.id, y.coord.store.relay.intents[e.id]);
  }

  /** With nothing left to persist, a reload gives every open intent back, up to a filled invitation. */
  lemma ReloadedIsTheLast(y: Sys, r: Relay, b: string, p: Protector)
    requires SysInv(y, p) && y.persisted == |y.coord.store.journal| - 1 && LoadedFrom(y.db, r) && b in y.coord.store.relay.intents
    ensures b in r.intents && Continues(y.coord.store.relay.intents[b], r.intents[b])
    ensures r.intents[b].authorizedPaymentWallets == y.coord.store.relay.intents[b].authorizedPaymentWallets
  {
    LastIsLive(y, p);
    ReloadIsGood(y, y.coord.store.relay, r, p);
    ReloadKeepsIntent(y.coord.store.relay, r, b);
  }

  lemma ReloadKeepsIntent(s: Relay, r: Relay, b: string)
    requires SurvivesReload(s, r) && b in s.intents
    ensures b in r.intents && Continues(s.intents[b], r.intents[b])
    ensures r.intents[b].authorizedPaymentWallets == s.intents[b].authorizedPaymentWallets
  {
  }

  // ---------------------------------------------------------------- renewals

  /** The intent of b in y is the one of r, or there is none. */
  predicate KeepsIntent(r: Relay, y: Relay, b: string) {
    b in y.intents ==> b in r.intents && Continues(r.intents[b], y.intents[b])
  }

  lemma MutationKeepsIntent(r: Relay, x: Relay, m: Mutation, b: string)
    requires RelaySafety.Legal(x, m) && KeepsIntent(r, x, b) && (BatonOf(m) == b ==> !m.Open?)
    ensures KeepsIntent(r, Mutate(x, m), b)
  {
  }

  lemma MovesKeepIntent(s: Store, t: Store, c: string, may: May, b: string)
    requires RelaySafety.Inv(s.relay) && Moves(s, t, c, may) && (c == b ==> !may.opens)
    ensures KeepsIntent(s.relay, t.relay, b)
  {
    forall x, y | KeepsIntent(s.relay, x, b) && Step(x, y, c, may) ensures KeepsIntent(s.relay, y, b) {
      var m :| RelaySafety.Legal(x, m) && BatonOf(m) == c && Permits(may, m) && y == Mutate(x, m);
      MutationKeepsIntent(s.relay, x, m, b);
    }
    MovesKeep(s, t, c, may, x => KeepsIntent(s.relay, x, b));
  }

  lemma AuthorizationKeepsIntent(s: Store, t: Store, q: PassRequest, nonce: string, at: int, c: Crypto, b: string)
    requires RelaySafety.Inv(s.relay) && IsAuthorization(s, t, q, nonce, at, c.sha) && q.batonId != b
    ensures KeepsIntent(s.relay, t.relay, b)
  {
    CancelledPassMoves(s, q.batonId);
    var cancelled := CancelledPass(s, q.batonId).0;
    MovesKeepIntent(s, cancelled, q.batonId, May(false, true, false), b);
    CreatedMoves(s, q, nonce, at, c.sha);
    CreatedMoves(cancelled, q, nonce, at, c.sha);
    MovesKeepIntent(s, Created(s, q, nonce, at, c.sha).0, q.batonId, May(true, false, false), b);
    MovesKeepIntent(cancelled, Created(cancelled, q, nonce, at, c.sha).0, q.batonId, May(true, false, false), b);
  }

  lemma AuthorizeKeepsOrOpens(x: Sys, s: Turn, c: Crypto, b: string)
    requires RelaySafety.Inv(x.coord.store.relay) && MissionSafety.Inv(x.coord.missions, c.protector) && s.event.Authorize?
    ensures KeepsIntent(x.coord.store.relay, StoreAfter(x, s, c).relay, b) || Opens(x, s, c, b)
  {
    var m, store, q := x.coord.missions, x.coord.store, s.event.request;
    if q.missionId != b {
      var request := AuthorizedShape(store, m, q, s.event.nonce, s.at, c, s.event.flushed);
      var t := StoreAfter(x, s, c);
      if t != store { AuthorizationKeepsIntent(store, t, request, s.event.nonce, s.at, c, b); }
    }
  }

  lemma StepKeepsOrOpens(x: Sys, s: Turn, c: Crypto, b: string)
    requires RelaySafety.Inv(x.coord.store.relay) && MissionSafety.Inv(x.coord.missions, c.protector) && !s.event.Crash?
    ensures KeepsIntent(x.coord.store.relay, StoreAfter(x, s, c).relay, b) || Opens(x, s, c, b)
  {
    var m, store := x.coord.missions, x.coord.store;
    match s.event
    case Authorize(_, _, _) => AuthorizeKeepsOrOpens(x, s, c, b);
    case FreezeRails(id, candidates, rpc, _) =>
      FrozenVerifiedMoves(store, id, candidates, s.at, rpc);
      MovesKeepIntent(store, StoreAfter(x, s, c), id, May(false, IsStaleAt(store.relay, id, s.at), true), b);
    case RecordHash(k, _) =>
      if k < |x.calls| {
        RecordedBroadcastMoves(store, x.calls[k].id, x.calls[k].hash, s.at);
        MovesKeepIntent(store, StoreAfter(x, s, c), x.calls[k].id, May(false, IsStaleAt(store.relay, x.calls[k].id, s.at), false), b);
      }
    case Reconcile(id, env) => ReconcileKeepsIntent(m, store, id, env, c.protector, b);
    case SweepNext(k, id, env) =>
      VisitIsAReconcile(x.coord, PlanOf(x, k), id, env, c.protector);
      ReconcileKeepsIntent(m, store, id, env, c.protector, b);
    case _ =>
  }

  lemma ReconcileKeepsIntent(m: MissionStore, s: Store, id: string, env: Env, p: Protector, b: string)
    requires RelaySafety.Inv(s.relay)
    ensures KeepsIntent(s.relay, MissionReconciled(m, s, id, env, p).1.relay, b)
  {
    ProjectionFollowsFlush(m, s, id, env, p);
    ReconciledMoves(s, id, env.at, env.first, env.second);
    MovesKeepIntent(s, Reconciled(s, id, env.at, env.first, env.second).0, id, May(false, IsStaleAt(s.relay, id, env.at), false), b);
  }

  /** The step authorized b anew, and i is what it opened. */
  predicate OpensAs(x: Sys, s: Turn, c: Crypto, b: string, i: PassIntent) {
    Opens(x, s, c, b) && Continues(StoreAfter(x, s, c).relay.intents[b], i)
  }

  /** Some step of the run did. */
  predicate Renewed(x: Sys, trace: seq<Turn>, c: Crypto, b: string, i: PassIntent)
    decreases |trace|
  {
    |trace| > 0 && (OpensAs(x, trace[0], c, b, i) || Renewed(Apply(x, trace[0], c), trace[1..], c, b, i))
  }

  /** Without a crash, an intent at the end of a run was there at its start or opened on the way. */
  lemma {:induction false} RunKeepsOrRenews(x: Sys, trace: seq<Turn>, c: Crypto, b: string)
    requires SysInv(x, c.protector) && IsSound(c.protector) && LegalRun(x, trace, c) && NoCrash(trace)
    ensures KeepsOrRenews(x, trace, c, b, Run(x, trace, c).coord.store.relay)
    decreases |trace|
  {
    if |trace| == 0 {
      NothingRenews(x, trace, c, b);
    } else {
      ApplyKeepsSysInv(x, trace[0], c);
      RunKeepsOrRenews(Apply(x, trace[0], c), trace[1..], c, b);
      OneStepMore(x, trace, c, b, Run(x, trace, c).coord.store.relay);
    }
  }

  lemma NothingRenews(x: Sys, trace: seq<Turn>, c: Crypto, b: string)
    ensures KeepsOrRenews(x, trace, c, b, x.coord.store.relay)
  {
  }

  predicate KeepsOrRenews(x: Sys, trace: seq<Turn>, c: Crypto, b: string, z: Relay) {
    KeepsIntent(x.coord.store.relay, z, b) || (b in z.intents && Renewed(x, trace, c, b, z.intents[b]))
  }

  lemma OneStepMore(x: Sys, trace: seq<Turn>, c: Crypto, b: string, z: Relay)
    requires SysInv(x, c.protector) && |trace| > 0 && !trace[0].event.Crash? && KeepsOrRenews(Apply(x, trace[0], c), trace[1..], c, b, z)
    ensures KeepsOrRenews(x, trace, c, b, z)
  {
    LiveIsValid(x, c.protector);
    ApplyParts(x, trace[0], c);
    if KeepsIntent(StoreAfter(x, trace[0], c).relay, z, b) { KeepingContinues(x, trace[0], c, z, b); }
  }

  lemma KeepingContinues(x: Sys, s: Turn, c: Crypto, z: Relay, b: string)
    requires RelaySafety.Inv(x.coord.store.relay) && MissionSafety.Inv(x.coord.missions, c.protector) && !s.event.Crash?
    requires KeepsIntent(StoreAfter(x, s, c).relay, z, b)
    ensures KeepsIntent(x.coord.store.relay, z, b) || (b in z.intents && OpensAs(x, s, c, b, z.intents[b]))
  {
    StepKeepsOrOpens(x, s, c, b);
  }
}
