/** The canonical relay store: intents, hop slots and holders, mutated in place and handed to onMutation as snapshots. */
module Relay {
  import opened Domain
  import opened PaymentRails
  import Text
  import HopCommitment
  import Policy

  /** A RelayStoreSnapshot. Hop slots keep their array order. */
  datatype Relay = Relay(intents: map<string, PassIntent>, hops: seq<Hop>, holders: map<string, string>)

  /** The live state and every snapshot onMutation has handed to the durable adapter, oldest first. */
  datatype Store = Store(relay: Relay, journal: seq<Relay>)

  datatype PassRequest = PassRequest(
    batonId: string,
    currentHolder: string,
    recipient: string,
    requireOpaqueTag: bool,
    wallets: seq<string>,
    invitationId: Option<string>)

  datatype HopPatch = StatusOnly(status: HopStatus) | Observed(status: HopStatus, value: Option<int>, confirmedAt: Option<int>)

  const EMPTY := Relay(map[], [], map[])

  // ---------------------------------------------------------------- lookups

  predicate InSlot(h: Hop, batonId: string, sequence: int) {
    h.batonId == batonId && h.sequence == sequence
  }

  predicate HasHash(h: Hop) {
    h.txHash.Some? && h.txHash.value != ""
  }

  /** Index of the first hop in the slot, or the length. */
  function SlotIndex(hops: seq<Hop>, batonId: string, sequence: int): (i: nat)
    ensures i <= |hops|
    ensures i < |hops| ==> InSlot(hops[i], batonId, sequence)
    ensures forall j | 0 <= j < i :: !InSlot(hops[j], batonId, sequence)
  {
    if |hops| == 0 || InSlot(hops[0], batonId, sequence) then 0 else 1 + SlotIndex(hops[1..], batonId, sequence)
  }

  function GetHop(hops: seq<Hop>, batonId: string, sequence: int): Option<Hop> {
    var i := SlotIndex(hops, batonId, sequence);
    if i < |hops| then Some(hops[i]) else None
  }

  function FindByHash(hops: seq<Hop>, hash: string): (h: Option<Hop>)
    ensures h.Some? ==> h.value in hops && h.value.txHash == Some(hash)
    ensures h.None? ==> forall i | 0 <= i < |hops| :: hops[i].txHash != Some(hash)
  {
    if |hops| == 0 then None
    else if hops[0].txHash == Some(hash) then Some(hops[0])
    else FindByHash(hops[1..], hash)
  }

  /** The sequence of the last FINAL hop, 0 without one. */
  function CurrentSequence(hops: seq<Hop>, batonId: string): int {
    if |hops| == 0 then 0
    else
      var rest := CurrentSequence(hops[1..], batonId);
      if hops[0].batonId == batonId && hops[0].status.FINAL? && hops[0].sequence > rest then hops[0].sequence else rest
  }

  function PutHop(hops: seq<Hop>, h: Hop): seq<Hop> {
    var i := SlotIndex(hops, h.batonId, h.sequence);
    if i < |hops| then hops[i := h] else hops + [h]
  }

  function Patched(h: Hop, patch: HopPatch): Hop {
    match patch
    case StatusOnly(status) => h.(status := status)
    case Observed(status, value, confirmedAt) => h.(status := status, value := value, confirmedAt := confirmedAt)
  }

  // ---------------------------------------------------------------- transitions

  function Commit(s: Store, r: Relay): Store {
    Store(r, s.journal + [r])
  }

  /** FINAL moves custody to the recipient and closes the intent. */
  function Settle(r: Relay, h: Hop): Relay {
    if h.status.FINAL?
    then r.(holders := r.holders[h.batonId := h.recipient], intents := r.intents - {h.batonId})
    else r
  }

  function DistinctWallets(wallets: seq<string>, seen: set<string>): seq<string> {
    if |wallets| == 0 then []
    else
      var key := AddressKey(wallets[0]);
      if key == "" || key in seen then DistinctWallets(wallets[1..], seen)
      else [wallets[0]] + DistinctWallets(wallets[1..], seen + {key})
  }

  function Commitment(q: PassRequest, sequence: int, nonce: string, wallets: seq<string>, sha: HopCommitment.Digest): string {
    HopCommitment.OpaqueHopCommitment(
      HopCommitment.HopFields(q.batonId, if sequence < 0 then 0 else sequence, q.currentHolder, q.recipient, nonce, wallets), sha)
  }

  function NewIntent(r: Relay, q: PassRequest, nonce: string, now: int, sha: HopCommitment.Digest): PassIntent {
    var sequence := CurrentSequence(r.hops, q.batonId) + 1;
    var wallets := DistinctWallets([q.currentHolder] + q.wallets, {});
    PassIntent(q.batonId, sequence, q.invitationId, q.currentHolder, q.recipient, wallets, nonce,
               if q.requireOpaqueTag then Some(Commitment(q, sequence, nonce, wallets, sha)) else None, now)
  }

  function Created(s: Store, q: PassRequest, nonce: string, now: int, sha: HopCommitment.Digest): (Store, Result<PassIntent>) {
    var r := s.relay;
    if q.batonId in r.intents then (s, Err(DUPLICATE_INTENT))
    else if q.currentHolder == q.recipient then (s, Err(SELF_PASS))
    else if q.batonId in r.holders && q.currentHolder != r.holders[q.batonId] then (s, Err(WRONG_CURRENT_HOLDER))
    else
      var intent := NewIntent(r, q, nonce, now, sha);
      (Commit(s, r.(intents := r.intents[q.batonId := intent], holders := r.holders[q.batonId := q.currentHolder])), Ok(intent))
  }

  function Cancelled(s: Store, batonId: string): Store {
    if batonId in s.relay.intents then Commit(s, s.relay.(intents := s.relay.intents - {batonId})) else s
  }

  predicate HoldsMarker(sources: seq<string>, marker: string) {
    exists i | 0 <= i < |sources| :: ToLower(sources[i]) == ToLower(marker)
  }

  function AddRail(sources: seq<string>, rail: string): seq<string> {
    var marker := RailMarker(rail);
    if marker == RAIL_PREFIX || HoldsMarker(sources, marker) then sources else sources + [marker]
  }

  function AddRails(sources: seq<string>, rails: seq<string>): seq<string>
    decreases |rails|
  {
    if |rails| == 0 then sources else AddRails(AddRail(sources, rails[0]), rails[1..])
  }

  function Frozen(s: Store, batonId: string, rails: seq<string>): (Store, Result<PassIntent>) {
    var r := s.relay;
    if batonId !in r.intents then (s, Err(NO_ACTIVE_INTENT))
    else
      var intent := r.intents[batonId];
      var hop := GetHop(r.hops, batonId, intent.sequence);
      if hop.Some? && HasHash(hop.value) then (s, Err(PAYMENT_RAIL_SNAPSHOT_LOCKED))
      else
        var next := AddRails(intent.authorizedPaymentWallets, rails);
        if next == intent.authorizedPaymentWallets then (s, Ok(intent))
        else
          var updated := intent.(authorizedPaymentWallets := next);
          (Commit(s, r.(intents := r.intents[batonId := updated])), Ok(updated))
  }

  function Recorded(s: Store, h: Hop): (Store, Result<Hop>) {
    var existing := if HasHash(h) then FindByHash(s.relay.hops, h.txHash.value) else None;
    if existing.Some? && !InSlot(existing.value, h.batonId, h.sequence) then (s, Err(DUPLICATE_TX_HASH))
    else (Commit(s, Settle(s.relay.(hops := PutHop(s.relay.hops, h)), h)), Ok(h))
  }

  /** No guard on the status being replaced: callers must not patch a FINAL slot. */
  function Updated(s: Store, batonId: string, sequence: int, patch: HopPatch): (Store, Result<Hop>) {
    var i := SlotIndex(s.relay.hops, batonId, sequence);
    if i == |s.relay.hops| then (s, Err(HOP_NOT_FOUND))
    else
      var h := Patched(s.relay.hops[i], patch);
      (Commit(s, Settle(s.relay.(hops := s.relay.hops[i := h]), h)), Ok(h))
  }

  function Hydrate(r: Relay): Relay {
    r.(intents := map b | b in r.intents ::
                    if |r.intents[b].authorizedPaymentWallets| > 0 then r.intents[b]
                    else r.intents[b].(authorizedPaymentWallets := [r.intents[b].currentHolder]))
  }

  // ---------------------------------------------------------------- pure checks

  function BatonDataTag(batonId: string, sequence: int): string {
    "carryone:" + batonId + ":" + if sequence < 0 then "-" + Text.Decimal(-sequence) else Text.Decimal(sequence)
  }

  /** The observed transaction pays exactly what the intent committed, from the holder or the given proven sender. */
  function ValidateTransaction(intent: PassIntent, tx: Tx, paymentSender: Option<string>): Result<()> {
    var direct := AddressKey(tx.sender) == AddressKey(intent.currentHolder);
    var authorised := paymentSender.Some? && paymentSender.value != "" && AddressKey(tx.sender) == AddressKey(paymentSender.value);
    if !direct && !authorised then Err(WRONG_SENDER)
    else if AddressKey(tx.to) != AddressKey(intent.recipient) then Err(WRONG_RECIPIENT)
    else if tx.value != ONE_NIM_IN_LUNA then Err(WRONG_AMOUNT)
    else if intent.recipientData.Some? then
      if tx.recipientData.None? then Err(MISSING_HOP_COMMITMENT)
      else if tx.recipientData != intent.recipientData then Err(WRONG_HOP_COMMITMENT)
      else Ok(())
    else if tx.recipientData.Some? && tx.recipientData.value != BatonDataTag(intent.batonId, intent.sequence) then Err(WRONG_BATON_TAG)
    else Ok(())
  }

  predicate IsStale(intent: PassIntent, now: int) {
    now - intent.createdAt > Policy.INTENT_VALIDITY_WINDOW_MS
  }

  // ---------------------------------------------------------------- the store object

  class RelayStore {
    var intents: map<string, PassIntent>
    var hops: seq<Hop>
    var holders: map<string, string>
    var journal: seq<Relay>

    ghost function State(): Store
      reads this
    {
      Store(Relay(intents, hops, holders), journal)
    }

    constructor (snapshot: Relay)
      ensures State() == Store(Hydrate(snapshot), [])
    {
      intents := Hydrate(snapshot).intents;
      hops, holders := snapshot.hops, snapshot.holders;
      journal := [];
    }

    /** Durable adapters persist the snapshot appended here. */
    method OnMutation()
      modifies this`journal
      ensures journal == old(journal) + [Relay(intents, hops, holders)]
    {
      journal := journal + [Relay(intents, hops, holders)];
    }

    method CreateIntent(q: PassRequest, nonce: string, now: int, sha: HopCommitment.Digest) returns (res: Result<PassIntent>)
      modifies this
      ensures (State(), res) == Created(old(State()), q, nonce, now, sha)
    {
      if q.batonId in intents {
        return Err(DUPLICATE_INTENT);
      }
      if q.currentHolder == q.recipient {
        return Err(SELF_PASS);
      }
      if q.batonId in holders && q.currentHolder != holders[q.batonId] {
        return Err(WRONG_CURRENT_HOLDER);
      }
      var intent := NewIntent(Relay(intents, hops, holders), q, nonce, now, sha);
      intents := intents[q.batonId := intent];
      holders := holders[q.batonId := q.currentHolder];
      OnMutation();
      return Ok(intent);
    }

    method CancelIntent(batonId: string)
      modifies this
      ensures State() == Cancelled(old(State()), batonId)
    {
      if batonId in intents {
        intents := intents - {batonId};
        OnMutation();
      }
    }

    method FreezeVerifiedPaymentRails(batonId: string, rails: seq<string>) returns (res: Result<PassIntent>)
      modifies this
      ensures (State(), res) == Frozen(old(State()), batonId, rails)
    {
      if batonId !in intents {
        return Err(NO_ACTIVE_INTENT);
      }
      var intent := intents[batonId];
      var hop := GetHop(hops, batonId, intent.sequence);
      if hop.Some? && HasHash(hop.value) {
        return Err(PAYMENT_RAIL_SNAPSHOT_LOCKED);
      }
      var next := intent.authorizedPaymentWallets;
      for i := 0 to |rails|
        invariant AddRails(intent.authorizedPaymentWallets, rails) == AddRails(next, rails[i..])
      {
        assert rails[i..][1..] == rails[i + 1..];
        var marker := RailMarker(rails[i]);
        if marker != RAIL_PREFIX && !HoldsMarker(next, marker) {
          next := next + [marker];
        }
      }
      if next == intent.authorizedPaymentWallets {
        return Ok(intent);
      }
      intent := intent.(authorizedPaymentWallets := next);
      intents := intents[batonId := intent];
      OnMutation();
      return Ok(intent);
    }

    method RecordHop(h: Hop) returns (res: Result<Hop>)
      modifies this
      ensures (State(), res) == Recorded(old(State()), h)
    {
      if HasHash(h) {
        var existing := FindByHash(hops, h.txHash.value);
        if existing.Some? && (existing.value.batonId != h.batonId || existing.value.sequence != h.sequence) {
          return Err(DUPLICATE_TX_HASH);
        }
      }
      var i := SlotIndex(hops, h.batonId, h.sequence);
      if i < |hops| {
        hops := hops[i := h];
      } else {
        hops := hops + [h];
      }
      if h.status.FINAL? {
        holders := holders[h.batonId := h.recipient];
        intents := intents - {h.batonId};
      }
      OnMutation();
      return Ok(h);
    }

    method UpdateHop(batonId: string, sequence: int, patch: HopPatch) returns (res: Result<Hop>)
      modifies this
      ensures (State(), res) == Updated(old(State()), batonId, sequence, patch)
    {
      var i := SlotIndex(hops, batonId, sequence);
      if i == |hops| {
        return Err(HOP_NOT_FOUND);
      }
      var h := Patched(hops[i], patch);
      hops := hops[i := h];
      if h.status.FINAL? {
        holders := holders[h.batonId := h.recipient];
        intents := intents - {h.batonId};
      }
      OnMutation();
      return Ok(h);
    }
  }
}
