/** Server-side relay decisions: what counts as the committed payment, and when a hop becomes FINAL. */
module RelayService {
  import opened Domain
  import opened PaymentRails
  import opened Relay
  import Policy
  import HopCommitment

  // ---------------------------------------------------------------- payment sources

  function Sources(intent: PassIntent): seq<string> {
    if |intent.authorizedPaymentWallets| > 0 then intent.authorizedPaymentWallets else [intent.currentHolder]
  }

  function FrozenWallets(intent: PassIntent): set<string> {
    WalletKeys(Sources(intent))
  }

  function FrozenRails(intent: PassIntent): set<string> {
    RailKeys(Sources(intent))
  }

  function SquashType(t: string): string {
    if t == "" then ""
    else (if IsSpace(t[0]) || t[0] == '_' || t[0] == '-' then "" else [Lower(t[0])]) + SquashType(t[1..])
  }

  predicate IsHtlc(t: Option<string>) {
    t.Some? && SquashType(t.value) in {"htlc", "hashedtimelockcontract", "hashedtimelockedcontract", "2"}
  }

  /** An included transfer from a frozen wallet into the rail: what every rail proof rests on. */
  predicate IsFunding(c: Tx, railKey: string, wallets: set<string>) {
    c.blockNumber.Some? && AddressKey(c.to) == railKey && AddressKey(c.sender) in wallets
  }

  predicate IsLiveFunding(c: Tx, railKey: string, sender: string, amount: int) {
    c.blockNumber.Some? && AddressKey(c.to) == railKey && AddressKey(c.sender) == AddressKey(sender) && c.value == amount
  }

  predicate IsCreation(c: Tx, railKey: string, wallets: set<string>, observed: Tx) {
    && IsFunding(c, railKey, wallets) && IsHtlc(c.recipientType) && c.value > 0
    && (observed.blockNumber.None? || c.blockNumber.value <= observed.blockNumber.value)
  }

  function CountCreations(history: seq<Tx>, railKey: string, wallets: set<string>, observed: Tx): nat {
    if |history| == 0 then 0
    else (if IsCreation(history[0], railKey, wallets, observed) then 1 else 0)
         + CountCreations(history[1..], railKey, wallets, observed)
  }

  /** Live HTLC metadata naming a frozen wallet as sender, corroborated by the exact funding transaction. */
  predicate LiveProof(account: Option<Account>, history: seq<Tx>, railKey: string, wallets: set<string>) {
    && account.Some? && IsHtlc(Some(account.value.accountType))
    && account.value.sender.Some? && account.value.sender.value != "" && AddressKey(account.value.sender.value) in wallets
    && account.value.totalAmount.Some? && account.value.totalAmount.value > 0
    && exists i | 0 <= i < |history| :: IsLiveFunding(history[i], railKey, account.value.sender.value, account.value.totalAmount.value)
  }

  /** Historic proof for a payment itself sent by an HTLC: exactly one creation transaction from a frozen wallet. */
  predicate HistoricProof(observed: Option<Tx>, history: seq<Tx>, railKey: string, wallets: set<string>) {
    && observed.Some? && AddressKey(observed.value.sender) == railKey && IsHtlc(observed.value.senderType)
    && CountCreations(history, railKey, wallets, observed.value) == 1
  }

  function VerifyHtlcRail(intent: PassIntent, rail: string, observed: Option<Tx>, rpc: Rpc): Answer<bool> {
    if rpc.history.None? || AddressKey(rail) == "" then Reply(false)
    else match rpc.history.value(rail)
      case Down => Down
      case Reply(history) =>
        var wallets := FrozenWallets(intent);
        if rpc.account.None? then Reply(HistoricProof(observed, history, AddressKey(rail), wallets))
        else match rpc.account.value(rail)
          case Down => Down
          case Reply(account) =>
            Reply(LiveProof(account, history, AddressKey(rail), wallets)
                  || HistoricProof(observed, history, AddressKey(rail), wallets))
  }

  /** The sender to accept besides the holder: a frozen wallet, a frozen rail, or a rail proven now. */
  function VerifiedPaymentRail(intent: PassIntent, tx: Tx, rpc: Rpc): Answer<Option<string>> {
    var key := AddressKey(tx.sender);
    if key in FrozenWallets(intent) then Reply(if key == AddressKey(intent.currentHolder) then None else Some(tx.sender))
    else if key in FrozenRails(intent) then Reply(Some(tx.sender))
    else match VerifyHtlcRail(intent, tx.sender, Some(tx), rpc)
      case Down => Down
      case Reply(proven) => Reply(if proven then Some(tx.sender) else None)
  }

  function ValidateObserved(intent: PassIntent, tx: Tx, rpc: Rpc): Result<()> {
    match VerifiedPaymentRail(intent, tx, rpc)
    case Down => Err(CHAIN_READ_FAILED)
    case Reply(sender) => ValidateTransaction(intent, tx, sender)
  }

  // ---------------------------------------------------------------- discovery

  /** The reader drops entries without a hash. */
  function Matcher(intent: PassIntent, rpc: Rpc): Tx -> bool {
    (tx: Tx) => tx.hash != "" && ValidateObserved(intent, tx, rpc).Ok?
  }

  /** The distinct hashes in the history that carry the committed payment. A failed check only skips its entry. */
  function MatchingHashes(history: seq<Tx>, matches: Tx -> bool): set<string> {
    set i | 0 <= i < |history| && matches(history[i]) :: history[i].hash
  }

  function LastMatch(history: seq<Tx>, matches: Tx -> bool): Option<Tx> {
    if |history| == 0 then None
    else
      var last := history[|history| - 1];
      if matches(last) then Some(last) else LastMatch(history[..|history| - 1], matches)
  }

  function Chosen(history: seq<Tx>, matches: Tx -> bool): Result<Option<Tx>> {
    if |MatchingHashes(history, matches)| > 1 then Err(AMBIGUOUS_MATCHING_BROADCAST)
    else Ok(LastMatch(history, matches))
  }

  function Discovered(intent: PassIntent, rpc: Rpc): Result<Option<Tx>> {
    if rpc.history.None? then Ok(None)
    else match rpc.history.value(intent.recipient)
      case Down => Err(CHAIN_READ_FAILED)
      case Reply(history) => Chosen(history, Matcher(intent, rpc))
  }

  // ---------------------------------------------------------------- transitions

  function HopFor(intent: PassIntent, hash: Option<string>, status: HopStatus): Hop {
    Hop(intent.batonId, intent.sequence, intent.invitationId, intent.currentHolder, intent.recipient, intent.nonce,
        hash, None, status, intent.createdAt, None)
  }

  /** The hash is not recorded, or only in the intent's own slot. */
  predicate HashIsFree(hops: seq<Hop>, intent: PassIntent, hash: string) {
    var e := FindByHash(hops, hash);
    e.None? || InSlot(e.value, intent.batonId, intent.sequence)
  }

  function ObservedBroadcast(s: Store, intent: PassIntent, hash: string): (Store, Result<Hop>) {
    var existing := FindByHash(s.relay.hops, hash);
    if existing.Some? && !InSlot(existing.value, intent.batonId, intent.sequence) then (s, Err(DUPLICATE_TX_HASH))
    else Recorded(s, HopFor(intent, Some(hash), PENDING))
  }

  function RecordedBroadcast(s: Store, batonId: string, hash: string, now: int): (Store, Result<Hop>) {
    if batonId !in s.relay.intents then (s, Err(NO_ACTIVE_INTENT))
    else
      var intent := s.relay.intents[batonId];
      if IsStale(intent, now) then (Cancelled(s, batonId), Err(STALE_INTENT))
      else ObservedBroadcast(s, intent, hash)
  }

  predicate HasRecordedBroadcast(r: Relay, batonId: string) {
    && batonId in r.intents
    && var hop := GetHop(r.hops, batonId, r.intents[batonId].sequence);
       hop.Some? && HasHash(hop.value)
  }

  function CancelledPass(s: Store, batonId: string): (Store, Result<()>) {
    if batonId !in s.relay.intents then (s, Ok(()))
    else
      var hop := GetHop(s.relay.hops, batonId, s.relay.intents[batonId].sequence);
      if hop.Some? && hop.value.txHash.Some? then (s, Err(CANNOT_CANCEL_BROADCAST))
      else (Cancelled(s, batonId), Ok(()))
  }

  /** The candidate rails worth proving: nonempty, first of each key, not frozen yet. */
  function PendingRails(intent: PassIntent, candidates: seq<string>): seq<string> {
    Without(DistinctWallets(candidates, {}), FrozenRails(intent))
  }

  function Without(rails: seq<string>, keys: set<string>): seq<string> {
    if |rails| == 0 then []
    else (if AddressKey(rails[0]) in keys then [] else [rails[0]]) + Without(rails[1..], keys)
  }

  /** The first rail that cannot be proven stops the freeze. */
  function ProveRails(intent: PassIntent, rails: seq<string>, rpc: Rpc): Result<()> {
    if |rails| == 0 then Ok(())
    else match VerifyHtlcRail(intent, rails[0], None, rpc)
      case Down => Err(CHAIN_READ_FAILED)
      case Reply(proven) => if proven then ProveRails(intent, rails[1..], rpc) else Err(PAYMENT_RAIL_UNVERIFIED)
  }

  function FrozenVerified(s: Store, batonId: string, candidates: seq<string>, now: int, rpc: Rpc): (Store, Result<PassIntent>) {
    if batonId !in s.relay.intents then (s, Err(NO_ACTIVE_INTENT))
    else
      var intent := s.relay.intents[batonId];
      if IsStale(intent, now) then (Cancelled(s, batonId), Err(STALE_INTENT))
      else
        var pending := PendingRails(intent, candidates);
        match ProveRails(intent, pending, rpc)
        case Err(reason) => (s, Err(reason))
        case Ok(_) => Frozen(s, batonId, pending)
  }

  /** A freeze is answered only after the flush barrier. */
  function FrozenDurably(s: Store, batonId: string, candidates: seq<string>, now: int, rpc: Rpc, flushed: bool): (Store, Result<PassIntent>) {
    var (t, res) := FrozenVerified(s, batonId, candidates, now, rpc);
    (t, if res.Ok? && !flushed then Err(PERSISTENCE_FAILED) else res)
  }

  /** A failed check, a failed rail read included, marks the hop INVALID; otherwise inclusion and finality decide. */
  function AppliedTransaction(s: Store, intent: PassIntent, hop: Hop, tx: Tx, now: int, rpc: Rpc): (Store, Result<Hop>) {
    match ValidateObserved(intent, tx, rpc)
    case Err(reason) => (Updated(s, intent.batonId, intent.sequence, StatusOnly(INVALID)).0, Err(reason))
    case Ok(_) =>
      if tx.blockNumber.None? then (s, Ok(hop))
      else match rpc.head
        case Down => (s, Err(CHAIN_READ_FAILED))
        case Reply(head) => Updated(s, intent.batonId, intent.sequence, Verdict(tx, head, now))
  }

  function Verdict(tx: Tx, head: int, now: int): HopPatch {
    if Policy.HasReachedFinality(tx.blockNumber, head, Policy.NIMIQ_POLICY)
    then Observed(FINAL, Some(tx.value), Some(now)) else Observed(INCLUDED, Some(tx.value), None)
  }

  function Optional(r: (Store, Result<Hop>)): (Store, Result<Option<Hop>>) {
    (r.0, match r.1 case Ok(h) => Ok(Some(h)) case Err(reason) => Err(reason))
  }

  /** A stale intent with no payment closes as INVALID. */
  function Expired(s: Store, intent: PassIntent): (Store, Result<Option<Hop>>) {
    var hop := GetHop(s.relay.hops, intent.batonId, intent.sequence);
    var marked :=
      if hop.Some? then Updated(s, intent.batonId, intent.sequence, StatusOnly(INVALID))
      else Recorded(s, HopFor(intent, None, INVALID));
    Optional((Cancelled(marked.0, intent.batonId), marked.1))
  }

  /** first answers the lookup or history scan, second the checks made after a payment was found. */
  function Reconciled(s: Store, batonId: string, now: int, first: Rpc, second: Rpc): (Store, Result<Option<Hop>>) {
    if batonId !in s.relay.intents then (s, Ok(None))
    else
      var intent := s.relay.intents[batonId];
      var hop := GetHop(s.relay.hops, batonId, intent.sequence);
      if hop.None? || hop.value.txHash.None? then
        match Discovered(intent, first)
        case Err(reason) => (s, Err(reason))
        case Ok(Some(tx)) =>
          (match ObservedBroadcast(s, intent, tx.hash)
           case (t, Err(reason)) => (t, Err(reason))
           case (t, Ok(h)) => Optional(AppliedTransaction(t, intent, h, tx, now, second)))
        case Ok(None) => if IsStale(intent, now) then Expired(s, intent) else (s, Ok(hop))
      else
        match first.transaction(hop.value.txHash.value)
        case Down => (s, Err(CHAIN_READ_FAILED))
        case Reply(None) => if IsStale(intent, now) then Expired(s, intent) else (s, Ok(hop))
        case Reply(Some(tx)) => Optional(AppliedTransaction(s, intent, hop.value, tx, now, second))
  }

  // ---------------------------------------------------------------- questions other components ask

  predicate InFinalRoute(r: Relay, id: string, wallet: string) {
    exists i | 0 <= i < |r.hops| :: OnFinalHop(r.hops[i], id, wallet)
  }

  predicate OnFinalHop(h: Hop, id: string, wallet: string) {
    h.batonId == id && h.status.FINAL? && (h.currentHolder == wallet || h.recipient == wallet)
  }

  // ---------------------------------------------------------------- sweep candidates

  function SlotStatus(r: Relay, batonId: string): Option<Hop>
    requires batonId in r.intents
  {
    GetHop(r.hops, batonId, r.intents[batonId].sequence)
  }

  function PendingReconciliation(r: Relay): set<string> {
    set b | b in r.intents && (SlotStatus(r, b).None? || SlotStatus(r, b).value.status in {PENDING, INCLUDED})
  }

  function FinalizedProjection(r: Relay): set<string> {
    set i | 0 <= i < |r.hops| && r.hops[i].status.FINAL? :: r.hops[i].batonId
  }

  function RecoverableInvalid(r: Relay): set<string> {
    set b | b in r.intents && SlotStatus(r, b).Some? && SlotStatus(r, b).value.status.INVALID? && HasHash(SlotStatus(r, b).value)
  }

  // ---------------------------------------------------------------- the service object

  class CanonicalRelayService {
    const store: RelayStore

    constructor (store: RelayStore)
      ensures this.store == store
    {
      this.store := store;
    }

    method DiscoverMatchingBroadcast(intent: PassIntent, rpc: Rpc) returns (res: Result<Option<Tx>>)
      ensures res == Discovered(intent, rpc)
    {
      if rpc.history.None? {
        return Ok(None);
      }
      var answer := rpc.history.value(intent.recipient);
      if answer.Down? {
        return Err(CHAIN_READ_FAILED);
      }
      res := ChooseMatch(answer.value, Matcher(intent, rpc));
    }

    static method ChooseMatch(history: seq<Tx>, valid: Tx -> bool) returns (res: Result<Option<Tx>>)
      ensures res == Chosen(history, valid)
    {
      var matches: map<string, Tx> := map[];
      for i := 0 to |history|
        invariant Collected(matches, history[..i], valid)
      {
        Collect(matches, history, valid, i);
        if valid(history[i]) {
          matches := matches[history[i].hash := history[i]];
        }
      }
      assert history[..|history|] == history;
      assert |matches| == |matches.Keys|;
      if |matches| > 1 {
        return Err(AMBIGUOUS_MATCHING_BROADCAST);
      }
      if |matches| == 0 {
        return Ok(None);
      }
      var hash :| hash in matches;
      SoleMatch(matches, history, valid, hash);
      return Ok(Some(matches[hash]));
    }

    method RecordObservedBroadcast(intent: PassIntent, hash: string) returns (res: Result<Hop>)
      modifies store
      ensures (store.State(), res) == ObservedBroadcast(old(store.State()), intent, hash)
    {
      var existing := FindByHash(store.hops, hash);
      if existing.Some? && (existing.value.batonId != intent.batonId || existing.value.sequence != intent.sequence) {
        return Err(DUPLICATE_TX_HASH);
      }
      res := store.RecordHop(HopFor(intent, Some(hash), PENDING));
    }

    method RecordBroadcast(batonId: string, hash: string, now: int) returns (res: Result<Hop>)
      modifies store
      ensures (store.State(), res) == RecordedBroadcast(old(store.State()), batonId, hash, now)
    {
      if batonId !in store.intents {
        return Err(NO_ACTIVE_INTENT);
      }
      var intent := store.intents[batonId];
      if IsStale(intent, now) {
        store.CancelIntent(batonId);
        return Err(STALE_INTENT);
      }
      res := RecordObservedBroadcast(intent, hash);
    }

    method CancelPass(batonId: string) returns (res: Result<()>)
      modifies store
      ensures (store.State(), res) == CancelledPass(old(store.State()), batonId)
    {
      if batonId !in store.intents {
        return Ok(());
      }
      var hop := GetHop(store.hops, batonId, store.intents[batonId].sequence);
      if hop.Some? && hop.value.txHash.Some? {
        return Err(CANNOT_CANCEL_BROADCAST);
      }
      store.CancelIntent(batonId);
      return Ok(());
    }

    method FreezeVerifiedPaymentRails(batonId: string, candidates: seq<string>, now: int, rpc: Rpc, flushed: bool)
      returns (res: Result<PassIntent>)
      modifies store
      ensures (store.State(), res) == FrozenDurably(old(store.State()), batonId, candidates, now, rpc, flushed)
    {
      if batonId !in store.intents {
        return Err(NO_ACTIVE_INTENT);
      }
      var intent := store.intents[batonId];
      if IsStale(intent, now) {
        store.CancelIntent(batonId);
        return Err(STALE_INTENT);
      }
      var pending := PendingRails(intent, candidates);
      for i := 0 to |pending|
        invariant ProveRails(intent, pending, rpc) == ProveRails(intent, pending[i..], rpc)
      {
        assert pending[i..][1..] == pending[i + 1..];
        var proven := VerifyHtlcRail(intent, pending[i], None, rpc);
        if proven.Down? {
          return Err(CHAIN_READ_FAILED);
        }
        if !proven.value {
          return Err(PAYMENT_RAIL_UNVERIFIED);
        }
      }
      res := store.FreezeVerifiedPaymentRails(batonId, pending);
      if res.Ok? && !flushed {
        return Err(PERSISTENCE_FAILED);
      }
    }

    method ApplyObservedTransaction(intent: PassIntent, hop: Hop, tx: Tx, now: int, rpc: Rpc) returns (res: Result<Hop>)
      modifies store
      ensures (store.State(), res) == AppliedTransaction(old(store.State()), intent, hop, tx, now, rpc)
    {
      var valid := ValidateObserved(intent, tx, rpc);
      if valid.Err? {
        var _ := store.UpdateHop(intent.batonId, intent.sequence, StatusOnly(INVALID));
        return Err(valid.reason);
      }
      if tx.blockNumber.None? {
        return Ok(hop);
      }
      if rpc.head.Down? {
        return Err(CHAIN_READ_FAILED);
      }
      var final := Policy.HasReachedFinality(tx.blockNumber, rpc.head.value, Policy.NIMIQ_POLICY);
      res := store.UpdateHop(intent.batonId, intent.sequence,
                             Observed(if final then FINAL else INCLUDED, Some(tx.value), if final then Some(now) else None));
    }

    method Expire(intent: PassIntent) returns (res: Result<Option<Hop>>)
      modifies store
      ensures (store.State(), res) == Expired(old(store.State()), intent)
    {
      var hop := GetHop(store.hops, intent.batonId, intent.sequence);
      var marked;
      if hop.Some? {
        marked := store.UpdateHop(intent.batonId, intent.sequence, StatusOnly(INVALID));
      } else {
        marked := store.RecordHop(HopFor(intent, None, INVALID));
      }
      store.CancelIntent(intent.batonId);
      return match marked case Ok(h) => Ok(Some(h)) case Err(reason) => Err(reason);
    }

    method Reconcile(batonId: string, now: int, first: Rpc, second: Rpc) returns (res: Result<Option<Hop>>)
      modifies store
      ensures (store.State(), res) == Reconciled(old(store.State()), batonId, now, first, second)
    {
      if batonId !in store.intents {
        return Ok(None);
      }
      var intent := store.intents[batonId];
      var hop := GetHop(store.hops, batonId, intent.sequence);
      if hop.None? || hop.value.txHash.None? {
        var discovered := DiscoverMatchingBroadcast(intent, first);
        if discovered.Err? {
          return Err(discovered.reason);
        }
        if discovered.value.Some? {
          var recorded := RecordObservedBroadcast(intent, discovered.value.value.hash);
          if recorded.Err? {
            return Err(recorded.reason);
          }
          var applied := ApplyObservedTransaction(intent, recorded.value, discovered.value.value, now, second);
          return match applied case Ok(h) => Ok(Some(h)) case Err(reason) => Err(reason);
        }
        if IsStale(intent, now) {
          res := Expire(intent);
          return;
        }
        return Ok(hop);
      }
      var looked := first.transaction(hop.value.txHash.value);
      if looked.Down? {
        return Err(CHAIN_READ_FAILED);
      }
      if looked.value.None? {
        if IsStale(intent, now) {
          res := Expire(intent);
          return;
        }
        return Ok(hop);
      }
      var applied := ApplyObservedTransaction(intent, hop.value, looked.value.value, now, second);
      return match applied case Ok(h) => Ok(Some(h)) case Err(reason) => Err(reason);
    }
  }

  lemma GrowMatches(history: seq<Tx>, matches: Tx -> bool, i: nat)
    requires i < |history|
    ensures MatchingHashes(history[..i + 1], matches)
         == MatchingHashes(history[..i], matches) + (if matches(history[i]) then {history[i].hash} else {})
    ensures LastMatch(history[..i + 1], matches)
         == if matches(history[i]) then Some(history[i]) else LastMatch(history[..i], matches)
  {
    var longer, shorter := history[..i + 1], history[..i];
    assert longer[..i] == shorter && longer[i] == history[i];
    forall h ensures h in MatchingHashes(longer, matches)
                <==> h in MatchingHashes(shorter, matches) + (if matches(history[i]) then {history[i].hash} else {})
    {
      if h in MatchingHashes(longer, matches) {
        var k :| 0 <= k < |longer| && matches(longer[k]) && longer[k].hash == h;
        assert k < i ==> shorter[k] == longer[k];
      }
      if h in MatchingHashes(shorter, matches) {
        var k :| 0 <= k < |shorter| && matches(shorter[k]) && shorter[k].hash == h;
        assert longer[k] == shorter[k];
      }
      assert matches(history[i]) ==> longer[i].hash in MatchingHashes(longer, matches);
    }
  }

  /** What the match map holds after a prefix of the history: every matching hash, under it the latest match. */
  ghost predicate Collected(found: map<string, Tx>, history: seq<Tx>, matches: Tx -> bool) {
    && found.Keys == MatchingHashes(history, matches)
    && var last := LastMatch(history, matches);
       if last.None? then found == map[] else last.value.hash in found && found[last.value.hash] == last.value
  }

  lemma Collect(found: map<string, Tx>, history: seq<Tx>, matches: Tx -> bool, i: nat)
    requires i < |history| && Collected(found, history[..i], matches)
    ensures Collected(if matches(history[i]) then found[history[i].hash := history[i]] else found, history[..i + 1], matches)
  {
    GrowMatches(history, matches, i);
  }

  lemma SoleMatch(found: map<string, Tx>, history: seq<Tx>, matches: Tx -> bool, hash: string)
    requires Collected(found, history, matches) && |found.Keys| <= 1 && hash in found
    ensures LastMatch(history, matches) == Some(found[hash])
  {
    OnlyOne(found.Keys, hash, LastMatch(history, matches).value.hash);
  }

  lemma OnlyOne<T>(s: set<T>, x: T, y: T)
    requires |s| <= 1 && x in s && y in s
    ensures x == y
  {
    assert |s - {x}| == |s| - 1;
  }
}
