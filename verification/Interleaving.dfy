/**
 * One reconcile call, split where it awaits the chain. Between two of its steps any other call may change the store, and
 * the intent and the hop it captured may be out of date when it writes.
 */
module Interleaving {
  import opened Domain
  import opened PaymentRails
  import opened Relay
  import opened RelayService
  import opened RelaySafety
  import opened RelayRuns
  import RelayTheorems
  import opened System
  import opened Reachability
  import opened Scenario
  import MissionService
  import Policy

  /** Awaiting the history or the transaction, awaiting validation and the head, or done. */
  datatype Call =
    | Looking(intent: PassIntent, captured: Option<Hop>)
    | Judging(intent: PassIntent, hop: Hop, tx: Tx)
    | Returned(res: Result<Option<Hop>>)

  function Begin(r: Relay, batonId: string): Call {
    if batonId !in r.intents then Returned(Ok(None))
    else Looking(r.intents[batonId], GetHop(r.hops, batonId, r.intents[batonId].sequence))
  }

  /** The captured hop decides between patching the slot and recording a new one. */
  function Closed(s: Store, intent: PassIntent, hop: Option<Hop>): (Store, Result<Option<Hop>>) {
    var marked :=
      if hop.Some? then Updated(s, intent.batonId, intent.sequence, StatusOnly(INVALID))
      else Recorded(s, HopFor(intent, None, INVALID));
    if marked.1.Err? then (marked.0, Err(marked.1.reason)) else (Cancelled(marked.0, intent.batonId), Ok(Some(marked.1.value)))
  }

  function NothingFound(s: Store, call: Call, now: int): (Store, Call)
    requires call.Looking?
  {
    if !IsStale(call.intent, now) then (s, Returned(Ok(call.captured)))
    else var (t, res) := Closed(s, call.intent, call.captured); (t, Returned(res))
  }

  /** What happens when the history or the transaction arrives. */
  function Look(s: Store, call: Call, now: int, first: Rpc): (Store, Call)
    requires call.Looking?
  {
    var intent, hop := call.intent, call.captured;
    if hop.None? || hop.value.txHash.None? then
      match Discovered(intent, first)
      case Err(reason) => (s, Returned(Err(reason)))
      case Ok(None) => NothingFound(s, call, now)
      case Ok(Some(tx)) =>
        match ObservedBroadcast(s, intent, tx.hash)
        case (t, Err(reason)) => (t, Returned(Err(reason)))
        case (t, Ok(h)) => (t, Judging(intent, h, tx))
    else
      match first.transaction(hop.value.txHash.value)
      case Down => (s, Returned(Err(CHAIN_READ_FAILED)))
      case Reply(None) => NothingFound(s, call, now)
      case Reply(Some(tx)) => (s, Judging(intent, hop.value, tx))
  }

  /** What happens when the checks are through. */
  function Judge(s: Store, call: Call, now: int, second: Rpc): (Store, Call)
    requires call.Judging?
  {
    var (t, res) := Optional(AppliedTransaction(s, call.intent, call.hop, call.tx, now, second));
    (t, Returned(res))
  }

  /** Left undisturbed, the steps are the reconcile call. */
  lemma UndisturbedStepsReconcile(s: Store, b: string, now: int, first: Rpc, second: Rpc)
    requires Inv(s.relay)
    ensures var begun := Begin(s.relay, b);
            var (t, looked) := if begun.Looking? then Look(s, begun, now, first) else (s, begun);
            var (u, judged) := if looked.Judging? then Judge(t, looked, now, second) else (t, looked);
            judged.Returned? && Reconciled(s, b, now, first, second) == (u, judged.res)
  {
    if b in s.relay.intents {
      assert IsNext(s.relay, b, s.relay.intents[b]);
    }
  }

  // ---------------------------------------------------------------- when another call's FINAL survives

  predicate IsSlotOf(call: Call, b: string, k: int)
    requires !call.Returned?
  {
    call.intent.batonId == b && call.intent.sequence == k
  }

  lemma PutHopAndFinal(hops: seq<Hop>, h: Hop, b: string, k: int)
    requires IsFinal(hops, b, k)
    ensures IsFinal(PutHop(hops, h), b, k) <==> !InSlot(h, b, k) || h.status.FINAL?
  {
    PutThenGet(hops, h, b, k);
  }

  lemma UpdateAndFinal(s: Store, batonId: string, sequence: int, patch: HopPatch, b: string, k: int)
    requires IsFinal(s.relay.hops, b, k)
    ensures IsFinal(Updated(s, batonId, sequence, patch).0.relay.hops, b, k) <==> (batonId, sequence) != (b, k) || patch.status.FINAL?
  {
    var i := SlotIndex(s.relay.hops, batonId, sequence);
    if i < |s.relay.hops| { PutHopAndFinal(s.relay.hops, Patched(s.relay.hops[i], patch), b, k); }
  }

  /** What this call itself read makes its last step write FINAL, or write nothing. */
  predicate ReadsAsFinal(call: Call, second: Rpc)
    requires call.Judging?
  {
    && ValidateObserved(call.intent, call.tx, second).Ok?
    && (call.tx.blockNumber.None? || second.head.Down?
        || Policy.HasReachedFinality(call.tx.blockNumber, second.head.value, Policy.NIMIQ_POLICY))
  }

  /**
   * A hop another call made FINAL survives the last step of a slower call exactly when that step is for another slot, or
   * what the slower call read itself is valid and final, or leaves it nothing to write.
   */
  lemma FinalSurvivesJudgingExactlyWhen(s: Store, call: Call, now: int, second: Rpc, b: string, k: int)
    requires call.Judging? && IsFinal(s.relay.hops, b, k)
    ensures IsFinal(Judge(s, call, now, second).0.relay.hops, b, k) <==> !IsSlotOf(call, b, k) || ReadsAsFinal(call, second)
  {
    UpdateAndFinal(s, call.intent.batonId, call.intent.sequence, StatusOnly(INVALID), b, k);
    if second.head.Reply? {
      UpdateAndFinal(s, call.intent.batonId, call.intent.sequence, Verdict(call.tx, second.head.value, now), b, k);
    }
  }

  /** The lookup leads to a write: a payment discovered for a call that captured no hash, or nothing found once stale. */
  predicate LookWrites(s: Store, call: Call, now: int, first: Rpc)
    requires call.Looking?
  {
    if call.captured.None? || call.captured.value.txHash.None? then
      var found := Discovered(call.intent, first);
      found.Ok? && if found.value.Some? then HashIsFree(s.relay.hops, call.intent, found.value.value.hash) else IsStale(call.intent, now)
    else first.transaction(call.captured.value.txHash.value) == Reply(None) && IsStale(call.intent, now)
  }

  lemma ClosingLosesItsSlot(s: Store, intent: PassIntent, hop: Option<Hop>, b: string, k: int)
    requires IsFinal(s.relay.hops, b, k)
    ensures IsFinal(Closed(s, intent, hop).0.relay.hops, b, k) <==> (intent.batonId, intent.sequence) != (b, k)
  {
    UpdateAndFinal(s, intent.batonId, intent.sequence, StatusOnly(INVALID), b, k);
    PutHopAndFinal(s.relay.hops, HopFor(intent, None, INVALID), b, k);
  }

  lemma NothingFoundAndFinal(s: Store, call: Call, now: int, b: string, k: int)
    requires call.Looking? && IsFinal(s.relay.hops, b, k)
    ensures IsFinal(NothingFound(s, call, now).0.relay.hops, b, k) <==> !IsSlotOf(call, b, k) || !IsStale(call.intent, now)
  {
    ClosingLosesItsSlot(s, call.intent, call.captured, b, k);
  }

  lemma ObservedAndFinal(s: Store, intent: PassIntent, hash: string, b: string, k: int)
    requires IsFinal(s.relay.hops, b, k)
    ensures IsFinal(ObservedBroadcast(s, intent, hash).0.relay.hops, b, k)
       <==> (intent.batonId, intent.sequence) != (b, k) || !HashIsFree(s.relay.hops, intent, hash)
  {
    PutHopAndFinal(s.relay.hops, HopFor(intent, Some(hash), PENDING), b, k);
  }

  /** It survives the first step exactly when that step is for another slot or writes nothing: what it writes is never FINAL. */
  lemma FinalSurvivesLookingExactlyWhen(s: Store, call: Call, now: int, first: Rpc, b: string, k: int)
    requires call.Looking? && IsFinal(s.relay.hops, b, k)
    ensures IsFinal(Look(s, call, now, first).0.relay.hops, b, k) <==> !IsSlotOf(call, b, k) || !LookWrites(s, call, now, first)
  {
    NothingFoundAndFinal(s, call, now, b, k);
    var found := Discovered(call.intent, first);
    if found.Ok? && found.value.Some? { ObservedAndFinal(s, call.intent, found.value.value.hash, b, k); }
  }

  // ---------------------------------------------------------------- calls of other missions

  lemma PutAlike(a: seq<Hop>, d: seq<Hop>, h: Hop, b: string)
    requires forall k :: GetHop(a, b, k) == GetHop(d, b, k)
    ensures forall k :: GetHop(PutHop(a, h), b, k) == GetHop(PutHop(d, h), b, k)
  {
    forall k ensures GetHop(PutHop(a, h), b, k) == GetHop(PutHop(d, h), b, k) {
      PutThenGet(a, h, b, k);
      PutThenGet(d, h, b, k);
    }
  }

  lemma RecordedAlike(s: Store, t: Store, h: Hop)
    requires SameAt(s.relay, t.relay, h.batonId)
    requires HasHash(h) ==> (Recorded(s, h).1.Ok? <==> Recorded(t, h).1.Ok?)
    ensures Recorded(s, h).1 == Recorded(t, h).1 && SameAt(Recorded(s, h).0.relay, Recorded(t, h).0.relay, h.batonId)
  {
    PutAlike(s.relay.hops, t.relay.hops, h, h.batonId);
  }

  lemma UpdatedPuts(s: Store, b: string, k: int, patch: HopPatch)
    requires GetHop(s.relay.hops, b, k).Some?
    ensures var h := Patched(GetHop(s.relay.hops, b, k).value, patch);
            Updated(s, b, k, patch) == (Commit(s, Settle(s.relay.(hops := PutHop(s.relay.hops, h)), h)), Ok(h)) && h.batonId == b
  {
  }

  lemma UpdatedAlike(s: Store, t: Store, b: string, k: int, patch: HopPatch)
    requires SameAt(s.relay, t.relay, b)
    ensures Updated(s, b, k, patch).1 == Updated(t, b, k, patch).1
    ensures SameAt(Updated(s, b, k, patch).0.relay, Updated(t, b, k, patch).0.relay, b)
  {
    assert GetHop(s.relay.hops, b, k) == GetHop(t.relay.hops, b, k);
    if GetHop(s.relay.hops, b, k).Some? {
      UpdatedPuts(s, b, k, patch);
      UpdatedPuts(t, b, k, patch);
      PutAlike(s.relay.hops, t.relay.hops, Patched(GetHop(s.relay.hops, b, k).value, patch), b);
    }
  }

  lemma ClosedAlike(s: Store, t: Store, intent: PassIntent, hop: Option<Hop>)
    requires SameAt(s.relay, t.relay, intent.batonId)
    ensures Closed(s, intent, hop).1 == Closed(t, intent, hop).1
    ensures SameAt(Closed(s, intent, hop).0.relay, Closed(t, intent, hop).0.relay, intent.batonId)
  {
    UpdatedAlike(s, t, intent.batonId, intent.sequence, StatusOnly(INVALID));
    RecordedAlike(s, t, HopFor(intent, None, INVALID));
  }

  /** A discovered hash is as free in t as in s. */
  predicate FreeAlike(s: Store, t: Store, call: Call, first: Rpc)
    requires call.Looking?
  {
    match Discovered(call.intent, first)
    case Ok(Some(tx)) => HashIsFree(s.relay.hops, call.intent, tx.hash) <==> HashIsFree(t.relay.hops, call.intent, tx.hash)
    case _ => true
  }

  lemma LookIgnoresOthers(s: Store, t: Store, call: Call, now: int, first: Rpc)
    requires call.Looking? && SameAt(s.relay, t.relay, call.intent.batonId) && FreeAlike(s, t, call, first)
    ensures Look(s, call, now, first).1 == Look(t, call, now, first).1
    ensures SameAt(Look(s, call, now, first).0.relay, Look(t, call, now, first).0.relay, call.intent.batonId)
  {
    NothingFoundAlike(s, t, call, now);
    var found := Discovered(call.intent, first);
    if found.Ok? && found.value.Some? { ObservedAlike(s, t, call.intent, found.value.value.hash); }
  }

  lemma NothingFoundAlike(s: Store, t: Store, call: Call, now: int)
    requires call.Looking? && SameAt(s.relay, t.relay, call.intent.batonId)
    ensures NothingFound(s, call, now).1 == NothingFound(t, call, now).1
    ensures SameAt(NothingFound(s, call, now).0.relay, NothingFound(t, call, now).0.relay, call.intent.batonId)
  {
    ClosedAlike(s, t, call.intent, call.captured);
  }

  lemma ObservedAlike(s: Store, t: Store, intent: PassIntent, hash: string)
    requires SameAt(s.relay, t.relay, intent.batonId) && (HashIsFree(s.relay.hops, intent, hash) <==> HashIsFree(t.relay.hops, intent, hash))
    ensures ObservedBroadcast(s, intent, hash).1 == ObservedBroadcast(t, intent, hash).1
    ensures SameAt(ObservedBroadcast(s, intent, hash).0.relay, ObservedBroadcast(t, intent, hash).0.relay, intent.batonId)
  {
    if HashIsFree(s.relay.hops, intent, hash) { RecordedAlike(s, t, HopFor(intent, Some(hash), PENDING)); }
  }

  lemma JudgeIgnoresOthers(s: Store, t: Store, call: Call, now: int, second: Rpc)
    requires call.Judging? && SameAt(s.relay, t.relay, call.intent.batonId)
    ensures Judge(s, call, now, second).1 == Judge(t, call, now, second).1
    ensures SameAt(Judge(s, call, now, second).0.relay, Judge(t, call, now, second).0.relay, call.intent.batonId)
  {
    UpdatedAlike(s, t, call.intent.batonId, call.intent.sequence, StatusOnly(INVALID));
    if second.head.Reply? { UpdatedAlike(s, t, call.intent.batonId, call.intent.sequence, Verdict(call.tx, second.head.value, now)); }
  }

  /**
   * Calls of other missions may come between the steps: the call still answers, and leaves at its own mission, what it would
   * have undisturbed. Only a discovered hash can matter: it must not have been recorded elsewhere meanwhile.
   */
  lemma OthersMayComeBetween(s: Store, t: Store, u: Store, b: string, now: int, first: Rpc, second: Rpc)
    requires Inv(s.relay) && SameAt(s.relay, t.relay, b)
    requires Begin(s.relay, b).Looking? ==> FreeAlike(s, t, Begin(s.relay, b), first)
    requires var begun := Begin(s.relay, b);
             SameAt(if begun.Looking? then Look(t, begun, now, first).0.relay else t.relay, u.relay, b)
    ensures var begun := Begin(s.relay, b);
            var looked := if begun.Looking? then Look(t, begun, now, first).1 else begun;
            var (v, judged) := if looked.Judging? then Judge(u, looked, now, second) else (u, looked);
            judged.Returned? && judged.res == Reconciled(s, b, now, first, second).1
            && SameAt(Reconciled(s, b, now, first, second).0.relay, v.relay, b)
  {
    UndisturbedStepsReconcile(s, b, now, first, second);
    var begun := Begin(s.relay, b);
    if begun.Looking? {
      assert IsNext(s.relay, b, s.relay.intents[b]);
      LookIgnoresOthers(s, t, begun, now, first);
      var (own, looked) := Look(s, begun, now, first);
      if looked.Judging? { JudgeIgnoresOthers(own, u, looked, now, second); }
    }
  }

  // ---------------------------------------------------------------- two calls on one mission

  /** The store after two calls for mission m whose steps interleave: both look, the fast one judges, then the slow one. */
  function Raced(s: Store, now: int, first: Rpc, fast: Rpc, slow: Rpc): (Store, Store)
    requires Begin(s.relay, "m").Looking?
    requires var (t, a) := Look(s, Begin(s.relay, "m"), now, first);
             a.Judging? && Look(t, Begin(s.relay, "m"), now, first).1.Judging?
  {
    var begun := Begin(s.relay, "m");
    var (t, a) := Look(s, begun, now, first);
    var (u, b) := Look(t, begun, now, first);
    var after := Judge(u, a, now, fast).0;
    (after, Judge(after, b, now, slow).0)
  }

  lemma BothLook(s: Store, c: Crypto, blocks: int)
    requires s.relay == SentRelay(None, 2, c)
    ensures var tx, call := PaymentOf(IntentOf(None, 2, c)), Looking(IntentOf(None, 2, c), Some(HopFor(IntentOf(None, 2, c), Some("h"), PENDING)));
            && Begin(s.relay, "m") == call
            && Look(s, call, 4, Chain(tx, blocks)) == (s, Judging(IntentOf(None, 2, c), HopFor(IntentOf(None, 2, c), Some("h"), PENDING), tx))
  {
    SentIsRecorded(s.relay, None, 2, c);
  }

  /** The fast call sees the head on the next macro block, the slow one had read it a block earlier. */
  ghost predicate RaceLosesFinal(s: Store, c: Crypto) {
    var tx := PaymentOf(IntentOf(None, 2, c));
    var begun := Begin(s.relay, "m");
    && begun.Looking? && Look(s, begun, 4, Chain(tx, 59)).0 == s && Look(s, begun, 4, Chain(tx, 59)).1.Judging?
    && var (before, after) := Raced(s, 4, Chain(tx, 59), Chain(tx, 60), Chain(tx, 59));
       IsFinal(before.relay.hops, "m", 1) && !IsFinal(after.relay.hops, "m", 1) && "m" !in after.relay.intents
  }

  lemma SentPaymentLosesFinal(s: Store, c: Crypto)
    requires s.relay == SentRelay(None, 2, c)
    ensures RaceLosesFinal(s, c)
  {
    var tx := PaymentOf(IntentOf(None, 2, c));
    BothLook(s, c, 59);
    IntentIsDirect(None, 2, c);
    var call := Judging(IntentOf(None, 2, c), HopFor(IntentOf(None, 2, c), Some("h"), PENDING), tx);
    assert ValidateObserved(IntentOf(None, 2, c), tx, Chain(tx, 60)).Ok? && ValidateObserved(IntentOf(None, 2, c), tx, Chain(tx, 59)).Ok?;
    var before := Judge(s, call, 4, Chain(tx, 60)).0;
    SentIsRecorded(s.relay, None, 2, c);
    var h := HopFor(IntentOf(None, 2, c), Some("h"), PENDING);
    PutThenGet(s.relay.hops, Patched(h, Verdict(tx, Policy.NIMIQ_POLICY.genesisBlockNumber + 60, 4)), "m", 1);
    assert IsFinal(before.relay.hops, "m", 1);
    FinalSurvivesJudgingExactlyWhen(before, call, 4, Chain(tx, 59), "m", 1);
  }

  /**
   * A legal run reaches a recorded payment; two reconcile calls then overlap, and the slower one turns the FINAL hop of
   * the faster one back into INCLUDED, with the intent already gone.
   */
  lemma OverlappingCallsLoseFinal(c: Crypto) returns (z: Sys)
    requires MissionService.IsSound(c.protector)
    ensures Reachable(z, c) && RaceLosesFinal(z.coord.store, c)
  {
    z := Sent(c);
    SentPaymentLosesFinal(z.coord.store, c);
  }
}
