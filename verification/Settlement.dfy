/** What one reconcile leaves behind, told from the evidence: which slots it settles, which it marks INVALID, which it leaves. */
module Settlement {
  import opened Domain
  import opened PaymentRails
  import opened Relay
  import opened RelayService
  import opened RelaySafety
  import opened Coordinator
  import opened HonestRun
  import opened Missions
  import opened MissionService
  import MissionSafety
  import opened System
  import opened Delivery
  import RelayTheorems
  import Policy

  /** Only the slot of h differs, and it holds h. */
  ghost predicate OnlySlot(before: seq<Hop>, after: seq<Hop>, h: Hop) {
    forall b, k :: GetHop(after, b, k) == if InSlot(h, b, k) then Some(h) else GetHop(before, b, k)
  }

  /** The relay where the settled hop ends a FINAL delivery, or keeps an INCLUDED one waiting. */
  ghost predicate SettledTo(r: Relay, q: Relay, h: Hop, final: bool) {
    && OnlySlot(r.hops, q.hops, h)
    && q.intents == (if final then r.intents - {h.batonId} else r.intents)
    && q.holders == (if final then r.holders[h.batonId := h.recipient] else r.holders)
  }

  /** The reader has tx included in a block and knows the head. */
  predicate IsIncluded(tx: Tx, rpc: Rpc) {
    tx.blockNumber.Some? && rpc.head.Reply?
  }

  predicate IsPastBoundary(tx: Tx, rpc: Rpc)
    requires IsIncluded(tx, rpc)
  {
    Policy.HasReachedFinality(tx.blockNumber, rpc.head.value, Policy.NIMIQ_POLICY)
  }

  /** Paid as agreed from a frozen wallet, or from any other source that passes validation. */
  predicate IsCommitted(i: PassIntent, tx: Tx, rpc: Rpc) {
    IsAsAgreed(i, tx) || ValidateObserved(i, tx, rpc).Ok?
  }

  /** One NIM to the recipient is what makes a payment committed. */
  lemma CommittedIsValid(i: PassIntent, tx: Tx, rpc: Rpc)
    requires IsCommitted(i, tx, rpc)
    ensures ValidateObserved(i, tx, rpc) == Ok(()) && tx.value == 100_000
  {
    if IsAsAgreed(i, tx) { AgreedIsValid(i, tx, rpc); }
    RelayTheorems.ValidatedMeansPaid(i, tx, rpc);
  }

  lemma PutIsOnlySlot(hops: seq<Hop>, h: Hop)
    ensures OnlySlot(hops, PutHop(hops, h), h)
  {
    forall b, k ensures GetHop(PutHop(hops, h), b, k) == if InSlot(h, b, k) then Some(h) else GetHop(hops, b, k) {
      PutThenGet(hops, h, b, k);
    }
  }

  lemma PutTwice(hops: seq<Hop>, h: Hop, g: Hop)
    requires InSlot(g, h.batonId, h.sequence)
    ensures OnlySlot(hops, PutHop(PutHop(hops, h), g), g)
  {
    PutIsOnlySlot(hops, h);
    PutIsOnlySlot(PutHop(hops, h), g);
  }

  /** A patch of the open slot is a Put of the patched hop. */
  lemma PatchIsPut(s: Store, h: Hop, patch: HopPatch)
    requires GetHop(s.relay.hops, h.batonId, h.sequence) == Some(h)
    ensures var g := Patched(h, patch);
            Updated(s, h.batonId, h.sequence, patch) == (Commit(s, Settle(s.relay.(hops := PutHop(s.relay.hops, g)), g)), Ok(g))
  {
  }

  // ---------------------------------------------------------------- a payment with a recorded hash

  /** The open intent's slot, when it holds a hash. */
  predicate IsReported(r: Relay, id: string, h: Hop) {
    id in r.intents && GetHop(r.hops, id, r.intents[id].sequence) == Some(h) && h.txHash.Some?
  }

  /**
   * A recorded payment that is committed and included is settled by one reconcile, whatever its slot said before: FINAL, one
   * NIM, confirmed now and the intent closed once the head is past the boundary; INCLUDED and the intent open until then.
   */
  lemma RecordedPaymentSettles(s: Store, id: string, env: Env, h: Hop, tx: Tx)
    requires RelaySafety.Inv(s.relay) && IsReported(s.relay, id, h) && env.first.transaction(h.txHash.value) == Reply(Some(tx))
    requires IsCommitted(s.relay.intents[id], tx, env.second) && IsIncluded(tx, env.second)
    ensures var (t, res) := Reconciled(s, id, env.at, env.first, env.second);
            var settled := if IsPastBoundary(tx, env.second) then h.(status := FINAL, value := Some(100_000), confirmedAt := Some(env.at))
                           else h.(status := INCLUDED, value := Some(100_000), confirmedAt := None);
            res == Ok(Some(settled)) && SettledTo(s.relay, t.relay, settled, IsPastBoundary(tx, env.second))
  {
    var i := s.relay.intents[id];
    CommittedIsValid(i, tx, env.second);
    PatchIsPut(s, h, Verdict(tx, env.second.head.value, env.at));
    PutIsOnlySlot(s.relay.hops, Patched(h, Verdict(tx, env.second.head.value, env.at)));
  }

  /** The looked-up transaction is not the committed payment, or it is nowhere and the window is over. */
  predicate IsRefuted(i: PassIntent, looked: Answer<Option<Tx>>, env: Env) {
    match looked
    case Down => false
    case Reply(None) => env.at - i.createdAt > Policy.INTENT_VALIDITY_WINDOW_MS
    case Reply(Some(tx)) => ValidateObserved(i, tx, env.second).Err?
  }

  /** The looked-up transaction is the committed payment, included in a block. */
  predicate IsConfirmed(i: PassIntent, looked: Answer<Option<Tx>>, env: Env) {
    looked.Reply? && looked.value.Some? && ValidateObserved(i, looked.value.value, env.second).Ok?
    && IsIncluded(looked.value.value, env.second)
  }

  /**
   * A recorded hash: the slot ends INVALID exactly when the evidence refutes it or it was INVALID and nothing settled it;
   * the intent is closed exactly when the payment is FINAL or is gone after the window; otherwise nothing is written.
   */
  lemma RecordedFateExactly(s: Store, id: string, env: Env, h: Hop)
    requires RelaySafety.Inv(s.relay) && IsReported(s.relay, id, h)
    ensures var t := Reconciled(s, id, env.at, env.first, env.second).0;
            var i := s.relay.intents[id];
            var looked := env.first.transaction(h.txHash.value);
            var after := GetHop(t.relay.hops, id, i.sequence);
            && (t == s <==> !IsRefuted(i, looked, env) && !IsConfirmed(i, looked, env))
            && (IsRefuted(i, looked, env) ==> OnlySlot(s.relay.hops, t.relay.hops, h.(status := INVALID)))
            && after.Some?
            && (after.value.status.INVALID? <==> IsRefuted(i, looked, env) || (h.status.INVALID? && !IsConfirmed(i, looked, env)))
            && (after.value.status.FINAL? <==> IsConfirmed(i, looked, env) && IsPastBoundary(looked.value.value, env.second))
            && (id !in t.relay.intents <==> after.value.status.FINAL? || (IsRefuted(i, looked, env) && looked.value.None?))
            && (id in t.relay.intents ==> t.relay.intents[id] == i)
  {
    var i := s.relay.intents[id];
    NextSlotIsOpen(s.relay, id);
    var looked := env.first.transaction(h.txHash.value);
    PatchIsPut(s, h, StatusOnly(INVALID));
    PutIsOnlySlot(s.relay.hops, h.(status := INVALID));
    if IsConfirmed(i, looked, env) {
      PatchIsPut(s, h, Verdict(looked.value.value, env.second.head.value, env.at));
      PutIsOnlySlot(s.relay.hops, Patched(h, Verdict(looked.value.value, env.second.head.value, env.at)));
    }
  }

  // ---------------------------------------------------------------- a payment nobody reported

  /** The hop an open intent's payment becomes under its hash. */
  function FoundHop(i: PassIntent, hash: string, status: HopStatus, value: Option<int>, confirmedAt: Option<int>): Hop {
    Hop(i.batonId, i.sequence, i.invitationId, i.currentHolder, i.recipient, i.nonce, Some(hash), value, status, i.createdAt, confirmedAt)
  }

  predicate IsOwn(hops: seq<Hop>, i: PassIntent, hash: string) {
    hash != "" && forall j | 0 <= j < |hops| && hops[j].txHash == Some(hash) :: InSlot(hops[j], i.batonId, i.sequence)
  }

  /** The store with the found hop PENDING in the open slot. */
  function WithFound(s: Store, h: Hop): Store {
    Commit(s, s.relay.(hops := PutHop(s.relay.hops, h)))
  }

  lemma FoundIsRecorded(s: Store, id: string, env: Env, tx: Tx)
    requires RelaySafety.Inv(s.relay) && IsUnreported(s.relay, id) && Discovered(s.relay.intents[id], env.first) == Ok(Some(tx))
    requires IsOwn(s.relay.hops, s.relay.intents[id], tx.hash)
    ensures var i := s.relay.intents[id];
            var h := FoundHop(i, tx.hash, HopStatus.PENDING, None, None);
            && i.batonId == id && GetHop(WithFound(s, h).relay.hops, id, i.sequence) == Some(h)
            && Reconciled(s, id, env.at, env.first, env.second) == Optional(AppliedTransaction(WithFound(s, h), i, h, tx, env.at, env.second))
  {
    var i := s.relay.intents[id];
    var h := FoundHop(i, tx.hash, HopStatus.PENDING, None, None);
    assert IsNext(s.relay, id, i);
    PutThenGet(s.relay.hops, h, id, i.sequence);
    assert ObservedBroadcast(s, i, tx.hash) == (WithFound(s, h), Ok(h));
  }

  /** Such a payment is recorded and settled in the same reconcile, by the same boundary. */
  lemma DiscoveredPaymentSettles(s: Store, id: string, env: Env, tx: Tx)
    requires RelaySafety.Inv(s.relay) && IsUnreported(s.relay, id) && Discovered(s.relay.intents[id], env.first) == Ok(Some(tx))
    requires IsOwn(s.relay.hops, s.relay.intents[id], tx.hash) && IsCommitted(s.relay.intents[id], tx, env.second) && IsIncluded(tx, env.second)
    ensures var (t, res) := Reconciled(s, id, env.at, env.first, env.second);
            var i := s.relay.intents[id];
            var settled := if IsPastBoundary(tx, env.second) then FoundHop(i, tx.hash, FINAL, Some(100_000), Some(env.at))
                           else FoundHop(i, tx.hash, INCLUDED, Some(100_000), None);
            res == Ok(Some(settled)) && SettledTo(s.relay, t.relay, settled, IsPastBoundary(tx, env.second))
  {
    var i := s.relay.intents[id];
    var h := FoundHop(i, tx.hash, HopStatus.PENDING, None, None);
    var patch := Verdict(tx, env.second.head.value, env.at);
    FoundIsRecorded(s, id, env, tx);
    CommittedIsValid(i, tx, env.second);
    PatchIsPut(WithFound(s, h), h, patch);
    PutTwice(s.relay.hops, h, Patched(h, patch));
  }

  /** Seen in the mempool only, or with the head unreadable: its hash is recorded, and the intent waits for it. */
  lemma FoundPaymentWaits(s: Store, id: string, env: Env, tx: Tx)
    requires RelaySafety.Inv(s.relay) && IsUnreported(s.relay, id) && Discovered(s.relay.intents[id], env.first) == Ok(Some(tx))
    requires IsOwn(s.relay.hops, s.relay.intents[id], tx.hash) && IsCommitted(s.relay.intents[id], tx, env.second) && !IsIncluded(tx, env.second)
    ensures var (t, res) := Reconciled(s, id, env.at, env.first, env.second);
            var seen := FoundHop(s.relay.intents[id], tx.hash, HopStatus.PENDING, None, None);
            && res == (if tx.blockNumber.None? then Ok(Some(seen)) else Err(CHAIN_READ_FAILED))
            && SettledTo(s.relay, t.relay, seen, false)
  {
    FoundIsRecorded(s, id, env, tx);
    CommittedIsValid(s.relay.intents[id], tx, env.second);
    PutIsOnlySlot(s.relay.hops, FoundHop(s.relay.intents[id], tx.hash, HopStatus.PENDING, None, None));
  }

  /** An unreadable or ambiguous history, or a hash another slot holds, is reported and changes nothing. */
  lemma UnusableDiscoveryChangesNothing(s: Store, id: string, env: Env)
    requires IsUnreported(s.relay, id)
    requires var found := Discovered(s.relay.intents[id], env.first);
             found.Ok? ==> found.value.Some? && exists j | 0 <= j < |s.relay.hops| ::
               s.relay.hops[j].txHash == Some(found.value.value.hash) && !InSlot(s.relay.hops[j], id, s.relay.intents[id].sequence)
    requires RelaySafety.Inv(s.relay)
    ensures var (t, res) := Reconciled(s, id, env.at, env.first, env.second);
            var found := Discovered(s.relay.intents[id], env.first);
            t == s && res.Err? && res.reason == if found.Err? then found.reason else DUPLICATE_TX_HASH
  {
    var i := s.relay.intents[id];
    var found := Discovered(i, env.first);
    assert IsNext(s.relay, id, i);
    if found.Ok? {
      var tx := found.value.value;
      var j :| 0 <= j < |s.relay.hops| && s.relay.hops[j].txHash == Some(tx.hash) && !InSlot(s.relay.hops[j], id, i.sequence);
      OneHolds(s.relay, tx.hash, j);
    }
  }

  /** A hash has one slot. */
  lemma OneHolds(r: Relay, hash: string, j: nat)
    requires RelaySafety.Inv(r) && j < |r.hops| && r.hops[j].txHash == Some(hash)
    ensures FindByHash(r.hops, hash) == Some(r.hops[j])
  {
    var found := FindByHash(r.hops, hash);
    var k :| 0 <= k < |r.hops| && r.hops[k] == found.value;
    assert GetHop(r.hops, r.hops[j].batonId, r.hops[j].sequence) == Some(r.hops[j]);
    assert GetHop(r.hops, r.hops[k].batonId, r.hops[k].sequence) == Some(r.hops[k]);
    assert ShareHash(GetHop(r.hops, r.hops[j].batonId, r.hops[j].sequence), GetHop(r.hops, r.hops[k].batonId, r.hops[k].sequence));
  }

  /** Without a payment in the history the intent waits out its window, then its slot is marked INVALID and it is closed. */
  lemma UnpaidIntentWaits(s: Store, id: string, env: Env)
    requires RelaySafety.Inv(s.relay) && IsUnreported(s.relay, id) && Discovered(s.relay.intents[id], env.first) == Ok(None)
    ensures var (t, res) := Reconciled(s, id, env.at, env.first, env.second);
            var i := s.relay.intents[id];
            var hop := GetHop(s.relay.hops, id, i.sequence);
            if env.at - i.createdAt <= Policy.INTENT_VALIDITY_WINDOW_MS then t == s && res == Ok(hop)
            else
              var closed := if hop.Some? then hop.value.(status := INVALID)
                            else Hop(id, i.sequence, i.invitationId, i.currentHolder, i.recipient, i.nonce, None, None, INVALID, i.createdAt, None);
              && res == Ok(Some(closed)) && OnlySlot(s.relay.hops, t.relay.hops, closed)
              && t.relay.intents == s.relay.intents - {id} && t.relay.holders == s.relay.holders
  {
    var i := s.relay.intents[id];
    assert IsNext(s.relay, id, i);
    var hop := GetHop(s.relay.hops, id, i.sequence);
    if hop.Some? {
      PatchIsPut(s, hop.value, StatusOnly(INVALID));
      PutIsOnlySlot(s.relay.hops, hop.value.(status := INVALID));
    } else {
      PutIsOnlySlot(s.relay.hops, HopFor(i, None, INVALID));
    }
  }

  /** A found payment that fails the second check stays recorded under its hash, INVALID, with the intent open for a repair. */
  lemma RefusedDiscoveryIsInvalid(s: Store, id: string, env: Env, tx: Tx)
    requires RelaySafety.Inv(s.relay) && IsUnreported(s.relay, id) && Discovered(s.relay.intents[id], env.first) == Ok(Some(tx))
    requires IsOwn(s.relay.hops, s.relay.intents[id], tx.hash) && ValidateObserved(s.relay.intents[id], tx, env.second).Err?
    ensures var (t, res) := Reconciled(s, id, env.at, env.first, env.second);
            && res.Err? && res.reason == ValidateObserved(s.relay.intents[id], tx, env.second).reason
            && SettledTo(s.relay, t.relay, FoundHop(s.relay.intents[id], tx.hash, INVALID, None, None), false)
  {
    var h := FoundHop(s.relay.intents[id], tx.hash, HopStatus.PENDING, None, None);
    FoundIsRecorded(s, id, env, tx);
    PatchIsPut(WithFound(s, h), h, StatusOnly(INVALID));
    PutTwice(s.relay.hops, h, h.(status := INVALID));
  }

  // ---------------------------------------------------------------- what a reconcile answers

  lemma AppliedAnswersTheSlot(s: Store, i: PassIntent, h: Hop, tx: Tx, now: int, rpc: Rpc)
    requires GetHop(s.relay.hops, i.batonId, i.sequence) == Some(h) && InSlot(h, i.batonId, i.sequence)
    ensures var (t, res) := AppliedTransaction(s, i, h, tx, now, rpc);
            res.Ok? ==> GetHop(t.relay.hops, i.batonId, i.sequence) == Some(res.value)
  {
    if rpc.head.Reply? {
      PatchIsPut(s, h, Verdict(tx, rpc.head.value, now));
      PutIsOnlySlot(s.relay.hops, Patched(h, Verdict(tx, rpc.head.value, now)));
    }
  }

  /** A reconcile that does not fail answers what it left in the open intent's slot. */
  lemma ObservedIsTheSlot(s: Store, id: string, env: Env)
    requires RelaySafety.Inv(s.relay) && id in s.relay.intents
    ensures var (t, res) := Reconciled(s, id, env.at, env.first, env.second);
            res.Ok? ==> res.value == GetHop(t.relay.hops, id, s.relay.intents[id].sequence)
  {
    var i := s.relay.intents[id];
    var hop := GetHop(s.relay.hops, id, i.sequence);
    assert IsNext(s.relay, id, i);
    if IsUnreported(s.relay, id) {
      var found := Discovered(i, env.first);
      if found == Ok(None) {
        UnpaidIntentWaits(s, id, env);
      } else if found.Ok? && IsOwn(s.relay.hops, i, found.value.value.hash) {
        var h := FoundHop(i, found.value.value.hash, HopStatus.PENDING, None, None);
        FoundIsRecorded(s, id, env, found.value.value);
        AppliedAnswersTheSlot(WithFound(s, h), i, h, found.value.value, env.at, env.second);
      } else if found.Ok? {
        FoundHashIsReal(i, env.first);
        UnusableDiscoveryChangesNothing(s, id, env);
      }
    } else {
      ReportedAnswersTheSlot(s, id, env, hop.value);
    }
  }

  lemma FoundHashIsReal(i: PassIntent, rpc: Rpc)
    ensures var found := Discovered(i, rpc); found.Ok? && found.value.Some? ==> found.value.value.hash != ""
  {
    if Discovered(i, rpc).Ok? && Discovered(i, rpc).value.Some? {
      RelayTheorems.DiscoveryIsExact(rpc.history.value(i.recipient).value, Matcher(i, rpc));
    }
  }

  lemma ReportedAnswersTheSlot(s: Store, id: string, env: Env, h: Hop)
    requires RelaySafety.Inv(s.relay) && IsReported(s.relay, id, h)
    ensures var (t, res) := Reconciled(s, id, env.at, env.first, env.second);
            res.Ok? ==> res.value == GetHop(t.relay.hops, id, s.relay.intents[id].sequence)
  {
    var i := s.relay.intents[id];
    var looked := env.first.transaction(h.txHash.value);
    assert IsNext(s.relay, id, i);
    if looked.Reply? && looked.value.Some? {
      AppliedAnswersTheSlot(s, i, h, looked.value.value, env.at, env.second);
    } else {
      PatchIsPut(s, h, StatusOnly(INVALID));
      PutIsOnlySlot(s.relay.hops, h.(status := INVALID));
    }
  }

  /** The hop an undisturbed reconcile reports: the open intent's slot, or the FINAL hop it has just projected. */
  function ReportedHop(m: MissionStore, s: Store, t: Store, id: string): Option<Hop> {
    if id in s.relay.intents || (id in m.missions && m.missions[id].status.ACTIVE? && IsFinal(t.relay.hops, id, 1)) then GetHop(t.relay.hops, id, 1)
    else None
  }

  /**
   * Exactly what a mission's reconcile answers and projects: nothing is projected behind a failed flush, a failed observation
   * or an unreachable repository, nor from a FINAL hop whose introduction is gone; a failed re-read only hides the answer.
   */
  lemma ReconcileAnswersExactly(m: MissionStore, s: Store, id: string, env: Env, p: Protector)
    requires MissionSafety.Inv(m, p) && IsSound(p) && Good(s.relay, m, p)
    ensures var (n, t, res) := MissionReconciled(m, s, id, env, p);
            var observed := Reconciled(s, id, env.at, env.first, env.second).1;
            var stranded := id in m.missions && m.missions[id].status.ACTIVE? && IsFinal(t.relay.hops, id, 1)
                            && !CanProject(m, GetHop(t.relay.hops, id, 1).value, id);
            if !env.flushed then n == m && res == Err(PERSISTENCE_FAILED)
            else if observed.Err? then n == m && res == Err(observed.reason)
            else if !env.projection then n == m && res == Err(REPOSITORY_UNAVAILABLE)
            else if id !in m.missions then n == m && res == Err(MISSION_NOT_FOUND)
            else if stranded then n == m && res.Err?
            else
              && id in n.missions
              && (m.missions[id].status.ACTIVE? && IsFinal(t.relay.hops, id, 1) ==> HasArrived(n, t.relay, id))
              && (!m.missions[id].status.ACTIVE? || !IsFinal(t.relay.hops, id, 1) ==> n == m)
              && res == if env.reread then Ok(Reconciliation(n.missions[id].status, ReportedHop(m, s, t, id))) else Err(REPOSITORY_UNAVAILABLE)
  {
    var t := Reconciled(s, id, env.at, env.first, env.second).0;
    ReconcileKeepsGood(m, s, id, env, p);
    ProjectionExactly(m, t.relay, id, env.at, p);
    if id in s.relay.intents {
      assert IntentLinked(id, s.relay.intents[id], m, p);
      ObservedIsTheSlot(s, id, env);
    }
    if id in m.missions && m.missions[id].status.ACTIVE? && IsFinal(t.relay.hops, id, 1) {
      ProjectionSucceedsExactlyWhen(m, t.relay, id, env.at, p);
    }
  }

  /** Cancelling gives up the open intent exactly while no hash is in its slot. */
  lemma CancellingExactly(s: Store, id: string)
    ensures var (t, res) := CancelledPass(s, id);
            var blocked := id in s.relay.intents
                           && GetHop(s.relay.hops, id, s.relay.intents[id].sequence).Some?
                           && GetHop(s.relay.hops, id, s.relay.intents[id].sequence).value.txHash.Some?;
            if blocked then t == s && res == Err(CANNOT_CANCEL_BROADCAST)
            else t.relay == s.relay.(intents := s.relay.intents - {id}) && res == Ok(())
  {
    if id !in s.relay.intents { assert s.relay.intents - {id} == s.relay.intents; }
  }

  // ---------------------------------------------------------------- a hash reported by a client

  /** The open intent is for the reported path: none, or an invitation of the mission that is still accepted. */
  predicate IsOnPath(m: MissionStore, r: Relay, id: string, invitationId: Option<string>) {
    id in r.intents && r.intents[id].invitationId == invitationId && (invitationId.Some? ==> HasAccepted(m, invitationId.value, id))
  }

  lemma PathPassesExactlyWhen(m: MissionStore, r: Relay, id: string, invitationId: Option<string>, p: Protector)
    requires MissionSafety.Inv(m, p) && Good(r, m, p)
    ensures BroadcastChecked(m, r, id, invitationId).Ok? <==> IsOnPath(m, r, id, invitationId)
  {
    if id in r.intents && r.intents[id].invitationId == invitationId {
      assert IntentLinked(id, r.intents[id], m, p);
      assert MissionSafety.MissionOk(id, m.missions[id], p);
      if invitationId.None? { BoundMeansClaimed(m, id, p); } else { LinkedPathPasses(m, r.intents[id], id, p); }
    }
  }

  lemma LinkedPathPasses(m: MissionStore, i: PassIntent, id: string, p: Protector)
    requires MissionSafety.Inv(m, p) && IntentLinked(id, i, m, p) && i.invitationId.Some?
    ensures PathChecked(m, i, id, LatestClaim(m.claims, id)).Ok? <==> HasAccepted(m, i.invitationId.value, id)
  {
  }

  lemma RecordingExactly(s: Store, id: string, hash: string, now: int)
    requires RelaySafety.Inv(s.relay) && id in s.relay.intents && hash != ""
    ensures var (t, res) := RecordedBroadcast(s, id, hash, now);
            var i := s.relay.intents[id];
            var seen := FoundHop(i, hash, HopStatus.PENDING, None, None);
            if now - i.createdAt > Policy.INTENT_VALIDITY_WINDOW_MS then
              res == Err(STALE_INTENT) && t.relay == s.relay.(intents := s.relay.intents - {id})
            else if !IsOwn(s.relay.hops, i, hash) then res == Err(DUPLICATE_TX_HASH) && t == s
            else res == Ok(seen) && SettledTo(s.relay, t.relay, seen, false)
  {
    var i := s.relay.intents[id];
    var seen := FoundHop(i, hash, HopStatus.PENDING, None, None);
    assert IsNext(s.relay, id, i);
    PutIsOnlySlot(s.relay.hops, seen);
    if !IsOwn(s.relay.hops, i, hash) {
      var j :| 0 <= j < |s.relay.hops| && s.relay.hops[j].txHash == Some(hash) && !InSlot(s.relay.hops[j], i.batonId, i.sequence);
      OneHolds(s.relay, hash, j);
    }
  }

  /**
   * A hash reported for a path the open intent is not on is refused and changes nothing; for a stale intent it only closes
   * it; a hash another slot holds changes nothing; otherwise it goes into the intent's slot, HopStatus.PENDING, and the intent stays
   * open. A flush that fails only hides the answer.
   */
  lemma ReportedHashExactly(m: MissionStore, s: Store, id: string, invitationId: Option<string>, hash: TxHash, now: int, flushed: bool, p: Protector)
    requires MissionSafety.Inv(m, p) && Good(s.relay, m, p)
    ensures var (t, res) := BroadcastAttached(m, s, id, invitationId, hash, now, flushed);
            if !IsOnPath(m, s.relay, id, invitationId) then t == s && res.Err?
            else
              var i := s.relay.intents[id];
              var seen := FoundHop(i, hash, HopStatus.PENDING, None, None);
              if now - i.createdAt > Policy.INTENT_VALIDITY_WINDOW_MS then
                res == Err(if flushed then STALE_INTENT else PERSISTENCE_FAILED) && t.relay == s.relay.(intents := s.relay.intents - {id})
              else if !IsOwn(s.relay.hops, i, hash) then res == Err(if flushed then DUPLICATE_TX_HASH else PERSISTENCE_FAILED) && t == s
              else res == (if flushed then Ok(seen) else Err(PERSISTENCE_FAILED)) && SettledTo(s.relay, t.relay, seen, false)
  {
    PathPassesExactlyWhen(m, s.relay, id, invitationId, p);
    if id in s.relay.intents { RecordingExactly(s, id, hash, now); }
  }
}
