/** What every relay operation keeps: the custody chain, unique slots and hashes, and the permanence of FINAL. */
module RelaySafety {
  import opened Domain
  import opened PaymentRails
  import opened Relay
  import opened RelayService
  import HopCommitment

  // ---------------------------------------------------------------- hop slots

  ghost predicate SlotsUnique(hops: seq<Hop>) {
    forall i | 0 <= i < |hops| :: SlotIndex(hops, hops[i].batonId, hops[i].sequence) == i
  }

  predicate IsFinal(hops: seq<Hop>, batonId: string, k: int) {
    var hop := GetHop(hops, batonId, k);
    hop.Some? && hop.value.status.FINAL?
  }

  lemma {:induction false} PutThenGet(hops: seq<Hop>, h: Hop, batonId: string, k: int)
    ensures GetHop(PutHop(hops, h), batonId, k) == if InSlot(h, batonId, k) then Some(h) else GetHop(hops, batonId, k)
  {
    if |hops| > 0 && !InSlot(hops[0], h.batonId, h.sequence) {
      PutThenGet(hops[1..], h, batonId, k);
      assert PutHop(hops, h) == [hops[0]] + PutHop(hops[1..], h);
      assert PutHop(hops, h)[1..] == PutHop(hops[1..], h);
    } else if |hops| > 0 {
      assert PutHop(hops, h)[1..] == hops[1..];
    } else {
      assert PutHop(hops, h) == [h];
    }
  }

  lemma PutKeepsSlots(hops: seq<Hop>, h: Hop)
    requires SlotsUnique(hops)
    ensures SlotsUnique(PutHop(hops, h))
  {
    var put := PutHop(hops, h);
    forall i | 0 <= i < |put| ensures SlotIndex(put, put[i].batonId, put[i].sequence) == i {
      var j := SlotIndex(put, put[i].batonId, put[i].sequence);
      assert InSlot(put[j], put[i].batonId, put[i].sequence);
      assert j < |hops| ==> SlotIndex(hops, hops[j].batonId, hops[j].sequence) == j;
      assert i < |hops| ==> SlotIndex(hops, hops[i].batonId, hops[i].sequence) == i;
    }
  }

  lemma {:induction false} CurrentBounds(hops: seq<Hop>, batonId: string)
    ensures CurrentSequence(hops, batonId) >= 0
    ensures forall i | 0 <= i < |hops| && hops[i].batonId == batonId && hops[i].status.FINAL? ::
              hops[i].sequence <= CurrentSequence(hops, batonId)
    ensures CurrentSequence(hops, batonId) > 0 ==>
              exists i :: 0 <= i < |hops| && hops[i].batonId == batonId && hops[i].status.FINAL?
                          && hops[i].sequence == CurrentSequence(hops, batonId)
  {
    if |hops| > 0 {
      CurrentBounds(hops[1..], batonId);
      var rest := CurrentSequence(hops[1..], batonId);
      if CurrentSequence(hops, batonId) == rest && rest > 0 {
        var i :| 0 <= i < |hops[1..]| && hops[1..][i].batonId == batonId && hops[1..][i].status.FINAL? && hops[1..][i].sequence == rest;
        assert hops[i + 1] == hops[1..][i];
      }
    }
  }

  /** The current sequence is the highest FINAL slot. */
  lemma CurrentIsHighestFinal(hops: seq<Hop>, batonId: string)
    requires SlotsUnique(hops)
    ensures CurrentSequence(hops, batonId) >= 0
    ensures forall k | IsFinal(hops, batonId, k) :: k <= CurrentSequence(hops, batonId)
    ensures CurrentSequence(hops, batonId) > 0 ==> IsFinal(hops, batonId, CurrentSequence(hops, batonId))
  {
    CurrentBounds(hops, batonId);
    if CurrentSequence(hops, batonId) > 0 {
      var i :| 0 <= i < |hops| && hops[i].batonId == batonId && hops[i].status.FINAL? && hops[i].sequence == CurrentSequence(hops, batonId);
      assert SlotIndex(hops, hops[i].batonId, hops[i].sequence) == i;
    }
  }

  lemma CurrentIs(hops: seq<Hop>, batonId: string, n: int)
    requires SlotsUnique(hops) && n >= 0
    requires forall k | IsFinal(hops, batonId, k) :: k <= n
    requires n > 0 ==> IsFinal(hops, batonId, n)
    ensures CurrentSequence(hops, batonId) == n
  {
    CurrentIsHighestFinal(hops, batonId);
  }

  // ---------------------------------------------------------------- the invariant

  ghost predicate HashesUnique(hops: seq<Hop>) {
    forall b, k, c, l | ShareHash(GetHop(hops, b, k), GetHop(hops, c, l)) :: b == c && k == l
  }

  ghost predicate ShareHash(g: Option<Hop>, h: Option<Hop>) {
    g.Some? && h.Some? && g.value.txHash.Some? && g.value.txHash == h.value.txHash
  }

  /** A FINAL hop carries its hash, exactly one NIM and its confirmation time. */
  predicate IsComplete(h: Hop) {
    h.txHash.Some? && h.value == Some(ONE_NIM_IN_LUNA) && h.confirmedAt.Some?
  }

  /** FINAL slots are exactly 1..n, each FINAL recipient is the next FINAL hop's holder, and FINAL hops are complete. */
  ghost predicate CustodyChain(hops: seq<Hop>) {
    && (forall b, k | IsFinal(hops, b, k) :: k >= 1 && IsComplete(GetHop(hops, b, k).value))
    && (forall b, k | 1 <= k <= CurrentSequence(hops, b) :: IsFinal(hops, b, k))
    && (forall b, j, k | IsFinal(hops, b, j) && IsFinal(hops, b, k) && k == j + 1 ::
          GetHop(hops, b, j).value.recipient == GetHop(hops, b, k).value.currentHolder)
  }

  /** An open intent is for the next sequence and from the recorded holder. */
  predicate IsNext(r: Relay, b: string, intent: PassIntent) {
    && intent.batonId == b && intent.sequence == CurrentSequence(r.hops, b) + 1
    && intent.currentHolder != intent.recipient
    && (b in r.holders ==> r.holders[b] == intent.currentHolder)
  }

  /** After the first FINAL hop the recorded holder is the last FINAL recipient. */
  predicate HolderFollows(r: Relay, b: string) {
    var n := CurrentSequence(r.hops, b);
    n >= 1 ==> IsFinal(r.hops, b, n) && b in r.holders && r.holders[b] == GetHop(r.hops, b, n).value.recipient
  }

  /** A used slot is at most the next one, and a leftover in the next one starts from the recorded holder. */
  predicate SlotInRange(r: Relay, h: Hop) {
    var n := CurrentSequence(r.hops, h.batonId);
    && 1 <= h.sequence <= n + 1
    && (h.sequence == n + 1 >= 2 ==> h.batonId in r.holders && h.currentHolder == r.holders[h.batonId])
  }

  ghost predicate Inv(r: Relay) {
    && SlotsUnique(r.hops) && CustodyChain(r.hops) && HashesUnique(r.hops)
    && (forall b | b in r.intents :: IsNext(r, b, r.intents[b]))
    && (forall b :: HolderFollows(r, b))
    && (forall b, k | GetHop(r.hops, b, k).Some? :: SlotInRange(r, GetHop(r.hops, b, k).value))
  }

  // ---------------------------------------------------------------- mutations

  /** The in-place changes a relay service makes to its store, one per onMutation. */
  datatype Mutation =
    | Open(intent: PassIntent)
    | Close(batonId: string)
    | Freeze(batonId: string, sources: seq<string>)
    | Put(hop: Hop)
    | Patch(batonId: string, patch: HopPatch)

  function BatonOf(m: Mutation): string {
    match m
    case Open(intent) => intent.batonId
    case Put(hop) => hop.batonId
    case Close(b) => b
    case Freeze(b, _) => b
    case Patch(b, _) => b
  }

  predicate AddsOnlyRails(before: seq<string>, after: seq<string>) {
    |before| <= |after| && after[..|before|] == before && forall i | |before| <= i < |after| :: RailAddress(after[i]).Some?
  }

  predicate IsVerdict(patch: HopPatch) {
    || patch == StatusOnly(INVALID)
    || (patch.Observed? && patch.status.INCLUDED? && patch.confirmedAt.None?)
    || (patch.Observed? && patch.status.FINAL? && patch.value == Some(ONE_NIM_IN_LUNA) && patch.confirmedAt.Some?)
  }

  /** When the service performs a mutation. */
  ghost predicate Legal(r: Relay, m: Mutation) {
    match m
    case Open(intent) => intent.batonId !in r.intents && IsNext(r, intent.batonId, intent)
    case Close(b) => b in r.intents
    case Freeze(b, sources) => b in r.intents && AddsOnlyRails(r.intents[b].authorizedPaymentWallets, sources)
    case Put(h) =>
      && h.batonId in r.intents && h == HopFor(r.intents[h.batonId], h.txHash, h.status) && h.status in {PENDING, INVALID}
      && h.txHash != Some("")
      && (h.txHash.Some? ==> forall i | 0 <= i < |r.hops| && r.hops[i].txHash == h.txHash :: InSlot(r.hops[i], h.batonId, h.sequence))
    case Patch(b, patch) =>
      && b in r.intents && IsVerdict(patch)
      && var hop := GetHop(r.hops, b, r.intents[b].sequence);
         hop.Some? && (patch.status.FINAL? ==> hop.value.txHash.Some?)
  }

  function Mutate(r: Relay, m: Mutation): Relay
    requires (m.Freeze? || m.Patch?) ==> m.batonId in r.intents
    requires m.Patch? ==> GetHop(r.hops, m.batonId, r.intents[m.batonId].sequence).Some?
  {
    match m
    case Open(intent) =>
      r.(intents := r.intents[intent.batonId := intent], holders := r.holders[intent.batonId := intent.currentHolder])
    case Close(b) => r.(intents := r.intents - {b})
    case Freeze(b, sources) => r.(intents := r.intents[b := r.intents[b].(authorizedPaymentWallets := sources)])
    case Put(h) => r.(hops := PutHop(r.hops, h))
    case Patch(b, patch) =>
      var h := Patched(GetHop(r.hops, b, r.intents[b].sequence).value, patch);
      Settle(r.(hops := PutHop(r.hops, h)), h)
  }

  lemma PutKeepsCurrent(r: Relay, h: Hop)
    requires SlotsUnique(r.hops) && !IsFinal(r.hops, h.batonId, h.sequence) && !h.status.FINAL?
    ensures forall b :: CurrentSequence(PutHop(r.hops, h), b) == CurrentSequence(r.hops, b)
    ensures forall b, k :: IsFinal(PutHop(r.hops, h), b, k) == IsFinal(r.hops, b, k)
  {
    forall b, k ensures IsFinal(PutHop(r.hops, h), b, k) == IsFinal(r.hops, b, k) {
      PutThenGet(r.hops, h, b, k);
    }
    PutKeepsSlots(r.hops, h);
    forall b ensures CurrentSequence(PutHop(r.hops, h), b) == CurrentSequence(r.hops, b) {
      CurrentIsHighestFinal(r.hops, b);
      CurrentIs(PutHop(r.hops, h), b, CurrentSequence(r.hops, b));
    }
  }

  /** The next slot is not FINAL. */
  lemma NextSlotIsOpen(r: Relay, b: string)
    requires Inv(r) && b in r.intents
    ensures !IsFinal(r.hops, b, r.intents[b].sequence)
  {
    CurrentIsHighestFinal(r.hops, b);
    assert IsNext(r, b, r.intents[b]);
  }

  lemma SlotHolds(hops: seq<Hop>, b: string, k: int)
    ensures GetHop(hops, b, k).Some? ==> InSlot(GetHop(hops, b, k).value, b, k) && GetHop(hops, b, k).value in hops
  {
  }

  lemma PutKeepsHashes(r: Relay, h: Hop)
    requires SlotsUnique(r.hops) && HashesUnique(r.hops)
    requires h.txHash.Some? ==>
               forall i | 0 <= i < |r.hops| && r.hops[i].txHash == h.txHash :: InSlot(r.hops[i], h.batonId, h.sequence)
    ensures HashesUnique(PutHop(r.hops, h))
  {
    var hops := PutHop(r.hops, h);
    forall b, k, c, l | ShareHash(GetHop(hops, b, k), GetHop(hops, c, l)) ensures b == c && k == l {
      PutThenGet(r.hops, h, b, k);
      PutThenGet(r.hops, h, c, l);
      SlotHolds(r.hops, b, k);
      SlotHolds(r.hops, c, l);
      if !InSlot(h, b, k) && !InSlot(h, c, l) {
        assert ShareHash(GetHop(r.hops, b, k), GetHop(r.hops, c, l));
      }
    }
  }

  /** A non-FINAL hop written into the next slot from the recorded holder keeps the invariant. */
  lemma PutOpenHop(r: Relay, h: Hop)
    requires Inv(r) && !h.status.FINAL? && !IsFinal(r.hops, h.batonId, h.sequence) && SlotInRange(r, h)
    requires h.txHash.Some? ==>
               forall i | 0 <= i < |r.hops| && r.hops[i].txHash == h.txHash :: InSlot(r.hops[i], h.batonId, h.sequence)
    ensures Inv(r.(hops := PutHop(r.hops, h)))
  {
    var q := r.(hops := PutHop(r.hops, h));
    PutKeepsSlots(r.hops, h);
    PutKeepsCurrent(r, h);
    PutKeepsHashes(r, h);
    forall b, k ensures GetHop(q.hops, b, k) == if InSlot(h, b, k) then Some(h) else GetHop(r.hops, b, k) {
      PutThenGet(r.hops, h, b, k);
    }
    forall b ensures HolderFollows(q, b) { assert HolderFollows(r, b); }
    forall b | b in q.intents ensures IsNext(q, b, q.intents[b]) { assert IsNext(r, b, r.intents[b]); }
  }

  /** h is the next slot of its baton, turned FINAL. */
  ghost predicate Finalises(r: Relay, h: Hop) {
    && Inv(r) && h.batonId in r.intents && h.sequence == r.intents[h.batonId].sequence
    && h.status.FINAL? && IsComplete(h)
    && var prior := GetHop(r.hops, h.batonId, h.sequence);
       prior.Some? && h.txHash == prior.value.txHash && h.currentHolder == prior.value.currentHolder
  }

  lemma FinaliseSlots(r: Relay, h: Hop)
    requires Finalises(r, h)
    ensures forall b, k :: GetHop(PutHop(r.hops, h), b, k) == if InSlot(h, b, k) then Some(h) else GetHop(r.hops, b, k)
    ensures forall b, k :: IsFinal(PutHop(r.hops, h), b, k) == (IsFinal(r.hops, b, k) || InSlot(h, b, k))
    ensures h.sequence == CurrentSequence(r.hops, h.batonId) + 1 && SlotsUnique(PutHop(r.hops, h))
    ensures forall b :: CurrentSequence(PutHop(r.hops, h), b) == if b == h.batonId then h.sequence else CurrentSequence(r.hops, b)
  {
    var hops := PutHop(r.hops, h);
    PutKeepsSlots(r.hops, h);
    assert IsNext(r, h.batonId, r.intents[h.batonId]);
    forall b, k ensures GetHop(hops, b, k) == if InSlot(h, b, k) then Some(h) else GetHop(r.hops, b, k) {
      PutThenGet(r.hops, h, b, k);
    }
    assert forall b, k :: IsFinal(hops, b, k) == (IsFinal(r.hops, b, k) || InSlot(h, b, k));
    forall b ensures CurrentSequence(hops, b) == if b == h.batonId then h.sequence else CurrentSequence(r.hops, b) {
      CurrentIsHighestFinal(r.hops, b);
      CurrentIs(hops, b, if b == h.batonId then h.sequence else CurrentSequence(r.hops, b));
    }
  }

  lemma FinaliseChain(r: Relay, h: Hop)
    requires Finalises(r, h)
    ensures CustodyChain(PutHop(r.hops, h))
  {
    FinaliseSlots(r, h);
    CurrentIsHighestFinal(r.hops, h.batonId);
    assert SlotInRange(r, GetHop(r.hops, h.batonId, h.sequence).value) && HolderFollows(r, h.batonId);
  }

  /** Turning the next slot FINAL extends the chain by one and hands custody on. */
  lemma FinaliseNext(r: Relay, h: Hop)
    requires Finalises(r, h)
    ensures Inv(Settle(r.(hops := PutHop(r.hops, h)), h))
  {
    var q := Settle(r.(hops := PutHop(r.hops, h)), h);
    FinaliseSlots(r, h);
    FinaliseChain(r, h);
    SlotOwnsItsHash(r, h);
    PutKeepsHashes(r, h);
    forall b ensures HolderFollows(q, b) { assert HolderFollows(r, b); }
    forall b | b in q.intents ensures IsNext(q, b, q.intents[b]) { assert IsNext(r, b, r.intents[b]); }
    forall b, k | GetHop(q.hops, b, k).Some? ensures SlotInRange(q, GetHop(q.hops, b, k).value) {
      if !InSlot(h, b, k) {
        SlotHolds(r.hops, b, k);
        CurrentIsHighestFinal(r.hops, b);
        assert SlotInRange(r, GetHop(r.hops, b, k).value);
      }
    }
  }

  lemma SlotOwnsItsHash(r: Relay, h: Hop)
    requires SlotsUnique(r.hops) && HashesUnique(r.hops)
    requires var g := GetHop(r.hops, h.batonId, h.sequence); g.Some? && g.value.txHash == h.txHash
    ensures h.txHash.Some? ==>
              forall i | 0 <= i < |r.hops| && r.hops[i].txHash == h.txHash :: InSlot(r.hops[i], h.batonId, h.sequence)
  {
    forall i | h.txHash.Some? && 0 <= i < |r.hops| && r.hops[i].txHash == h.txHash ensures InSlot(r.hops[i], h.batonId, h.sequence) {
      assert GetHop(r.hops, r.hops[i].batonId, r.hops[i].sequence) == Some(r.hops[i]);
      assert ShareHash(GetHop(r.hops, h.batonId, h.sequence), GetHop(r.hops, r.hops[i].batonId, r.hops[i].sequence));
    }
  }

  /** Every mutation the service performs keeps the relay invariant. */
  lemma MutationKeepsInv(r: Relay, m: Mutation)
    requires Inv(r) && Legal(r, m)
    ensures Inv(Mutate(r, m))
  {
    var q := Mutate(r, m);
    match m
    case Put(h) =>
      NextSlotIsOpen(r, h.batonId);
      assert IsNext(r, h.batonId, r.intents[h.batonId]) && HolderFollows(r, h.batonId);
      CurrentIsHighestFinal(r.hops, h.batonId);
      PutOpenHop(r, h);
    case Patch(b, patch) =>
      var prior := GetHop(r.hops, b, r.intents[b].sequence).value;
      var h := Patched(prior, patch);
      NextSlotIsOpen(r, b);
      if h.status.FINAL? {
        FinaliseNext(r, h);
      } else {
        SlotOwnsItsHash(r, h);
        assert SlotInRange(r, prior);
        PutOpenHop(r, h);
      }
    case Open(intent) => OpenKeepsInv(r, intent);
    case Close(_) =>
      InvWithIntents(r, q);
    case Freeze(_, _) =>
      InvWithIntents(r, q);
  }

  lemma OpenKeepsInv(r: Relay, intent: PassIntent)
    requires Inv(r) && Legal(r, Open(intent))
    ensures Inv(Mutate(r, Open(intent)))
  {
    var q := Mutate(r, Open(intent));
    forall b ensures HolderFollows(q, b) { assert HolderFollows(r, b); }
    forall b | b in q.intents ensures IsNext(q, b, q.intents[b]) {
      if b != intent.batonId { assert IsNext(r, b, r.intents[b]); }
    }
    forall b, k | GetHop(q.hops, b, k).Some? ensures SlotInRange(q, GetHop(q.hops, b, k).value) {
      assert SlotInRange(r, GetHop(r.hops, b, k).value) && HolderFollows(r, b);
    }
  }

  /** Intents may be dropped or have their sources extended. */
  lemma InvWithIntents(r: Relay, q: Relay)
    requires Inv(r) && q.hops == r.hops && q.holders == r.holders
    requires forall b | b in q.intents :: b in r.intents
               && q.intents[b] == r.intents[b].(authorizedPaymentWallets := q.intents[b].authorizedPaymentWallets)
    ensures Inv(q)
  {
    forall b ensures HolderFollows(q, b) { assert HolderFollows(r, b); }
    forall b | b in q.intents ensures IsNext(q, b, q.intents[b]) { assert IsNext(r, b, r.intents[b]); }
    forall b, k | GetHop(q.hops, b, k).Some? ensures SlotInRange(q, GetHop(q.hops, b, k).value) {
      assert SlotInRange(r, GetHop(r.hops, b, k).value);
    }
  }

  /** A FINAL hop is never changed by a legal mutation. */
  lemma MutationKeepsFinal(r: Relay, m: Mutation, b: string, k: int)
    requires Inv(r) && Legal(r, m) && IsFinal(r.hops, b, k)
    ensures GetHop(Mutate(r, m).hops, b, k) == GetHop(r.hops, b, k)
  {
    match m
    case Put(h) =>
      NextSlotIsOpen(r, h.batonId);
      PutThenGet(r.hops, h, b, k);
    case Patch(c, patch) =>
      NextSlotIsOpen(r, c);
      PutThenGet(r.hops, Patched(GetHop(r.hops, c, r.intents[c].sequence).value, patch), b, k);
    case _ =>
  }
}
