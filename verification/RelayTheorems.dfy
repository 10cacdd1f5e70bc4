/** What the relay promises: whole-run safety, payment evidence behind FINAL, and discovery as a specification. */
module RelayTheorems {
  import opened Domain
  import opened PaymentRails
  import opened Relay
  import opened RelayService
  import opened RelaySafety
  import opened RelayRuns
  import HopCommitment
  import Policy

  // ---------------------------------------------------------------- runs of the bare relay

  datatype Event =
    | Initiate(request: PassRequest, nonce: string, at: int)
    | FreezeRails(batonId: string, candidates: seq<string>, at: int, rpc: Rpc)
    | Broadcast(batonId: string, hash: string, at: int)
    | Reconcile(batonId: string, at: int, first: Rpc, second: Rpc)
    | CancelPass(batonId: string)

  /** Each call is atomic per baton; module Interleaving splits a reconcile at its awaits. */
  function Apply(s: Store, e: Event, sha: HopCommitment.Digest): Store {
    match e
    case Initiate(q, nonce, at) => Created(s, q, nonce, at, sha).0
    case FreezeRails(b, candidates, at, rpc) => FrozenVerified(s, b, candidates, at, rpc).0
    case Broadcast(b, hash, at) => RecordedBroadcast(s, b, hash, at).0
    case Reconcile(b, at, first, second) => Reconciled(s, b, at, first, second).0
    case CancelPass(b) => CancelledPass(s, b).0
  }

  function RunFrom(s: Store, trace: seq<Event>, sha: HopCommitment.Digest): Store
    decreases |trace|
  {
    if |trace| == 0 then s else RunFrom(Apply(s, trace[0], sha), trace[1..], sha)
  }

  function EventBaton(e: Event): string {
    if e.Initiate? then e.request.batonId else e.batonId
  }

  /** Only initiating opens an intent; only cancelling, or an event after its window, gives one up. */
  function Freedom(r: Relay, e: Event): May {
    match e
    case Initiate(_, _, _) => May(true, false, false)
    case CancelPass(_) => May(false, true, false)
    case FreezeRails(b, _, at, _) => May(false, IsStaleAt(r, b, at), true)
    case Broadcast(b, _, at) => May(false, IsStaleAt(r, b, at), false)
    case Reconcile(b, at, _, _) => May(false, IsStaleAt(r, b, at), false)
  }

  /** Callers pass real transaction hashes. */
  predicate IsReal(e: Event) {
    e.Broadcast? ==> e.hash != ""
  }

  lemma ApplyMoves(s: Store, e: Event, sha: HopCommitment.Digest)
    requires Inv(s.relay) && IsReal(e)
    ensures Moves(s, Apply(s, e, sha), EventBaton(e), Freedom(s.relay, e))
  {
    match e
    case Initiate(q, nonce, at) => CreatedMoves(s, q, nonce, at, sha);
    case FreezeRails(b, candidates, at, rpc) => FrozenVerifiedMoves(s, b, candidates, at, rpc);
    case Broadcast(b, hash, at) => RecordedBroadcastMoves(s, b, hash, at);
    case Reconcile(b, at, first, second) => ReconciledMoves(s, b, at, first, second);
    case CancelPass(b) => CancelledPassMoves(s, b);
  }

  lemma EmptyRelayIsValid()
    ensures Inv(EMPTY)
  {
    assert forall b, k :: GetHop([], b, k) == None;
    assert forall b :: CurrentSequence([], b) == 0;
  }

  /** From any valid state, every run keeps the invariant and every FINAL hop exactly as it is. */
  lemma {:induction false} RunsAreSafe(s: Store, trace: seq<Event>, sha: HopCommitment.Digest)
    requires Inv(s.relay) && forall i | 0 <= i < |trace| :: IsReal(trace[i])
    ensures Inv(RunFrom(s, trace, sha).relay)
    ensures KeepsFinals(s.relay, RunFrom(s, trace, sha).relay)
    decreases |trace|
  {
    if |trace| > 0 {
      var t := Apply(s, trace[0], sha);
      ApplyMoves(s, trace[0], sha);
      MovesExtend(s, t, EventBaton(trace[0]), Freedom(s.relay, trace[0]));
      RunsAreSafe(t, trace[1..], sha);
      forall c, k | IsFinal(s.relay.hops, c, k)
        ensures GetHop(RunFrom(s, trace, sha).relay.hops, c, k) == GetHop(s.relay.hops, c, k)
      {
        assert IsFinal(t.relay.hops, c, k);
      }
    }
  }

  /** A relay that started empty is valid however long it has run, and what was FINAL along the way still is. */
  lemma NewRelaysStaySafe(before: seq<Event>, after: seq<Event>, sha: HopCommitment.Digest)
    requires forall i | 0 <= i < |before| :: IsReal(before[i])
    requires forall i | 0 <= i < |after| :: IsReal(after[i])
    ensures var s := RunFrom(Store(EMPTY, []), before, sha);
            Inv(s.relay) && Inv(RunFrom(s, after, sha).relay) && KeepsFinals(s.relay, RunFrom(s, after, sha).relay)
  {
    EmptyRelayIsValid();
    RunsAreSafe(Store(EMPTY, []), before, sha);
    RunsAreSafe(RunFrom(Store(EMPTY, []), before, sha), after, sha);
  }

  /** A run leaves a baton alone unless one of its events names it. */
  lemma {:induction false} RunsStayHome(s: Store, trace: seq<Event>, sha: HopCommitment.Digest, c: string)
    requires Inv(s.relay) && forall i | 0 <= i < |trace| :: IsReal(trace[i]) && EventBaton(trace[i]) != c
    ensures SameAt(s.relay, RunFrom(s, trace, sha).relay, c)
    decreases |trace|
  {
    if |trace| > 0 {
      var t := Apply(s, trace[0], sha);
      ApplyMoves(s, trace[0], sha);
      MovesExtend(s, t, EventBaton(trace[0]), Freedom(s.relay, trace[0]));
      RunsStayHome(t, trace[1..], sha, c);
      assert SameAt(s.relay, t.relay, c);
    }
  }

  /** Hydrating a snapshot only spells out the holder where no wallet was stored: nobody may pay who could not before. */
  lemma HydrationKeepsSources(r: Relay, b: string)
    ensures var t := Hydrate(r);
            && t.hops == r.hops && t.holders == r.holders && (b in t.intents <==> b in r.intents)
            && (b in r.intents ==>
                  && t.intents[b] == r.intents[b].(authorizedPaymentWallets := t.intents[b].authorizedPaymentWallets)
                  && |t.intents[b].authorizedPaymentWallets| > 0
                  && (if |r.intents[b].authorizedPaymentWallets| > 0 then t.intents[b] == r.intents[b]
                      else t.intents[b].authorizedPaymentWallets == [r.intents[b].currentHolder])
                  && FrozenWallets(t.intents[b]) == FrozenWallets(r.intents[b]) && FrozenRails(t.intents[b]) == FrozenRails(r.intents[b]))
  {
  }

  // ---------------------------------------------------------------- payment evidence

  /** An account type, however it is spelled, that denotes a hashed-timelock contract. */
  predicate NamesHtlc(t: Option<string>) {
    t.Some? && SquashType(t.value) in {"htlc", "hashedtimelockcontract", "hashedtimelockedcontract", "2"}
  }

  /** Comparing account types ignores case, white space, underscores and hyphens, and nothing else. */
  lemma {:induction false} SquashingDistributes(t: string, u: string)
    ensures SquashType(t + u) == SquashType(t) + SquashType(u)
  {
    if |t| > 0 {
      assert (t + u)[1..] == t[1..] + u;
      SquashingDistributes(t[1..], u);
    } else {
      assert t + u == u;
    }
  }

  lemma SquashingOneLetter(c: char)
    ensures SquashType([c]) == if IsSpace(c) || c == '_' || c == '-' then "" else [Lower(c)]
  {
    assert [c][1..] == "";
  }

  /** c is an included transfer into the rail. */
  predicate EntersRail(c: Tx, rail: string) {
    c.blockNumber.Some? && AddressKey(c.to) == AddressKey(rail)
  }

  /** The account is a live HTLC that names one of the wallets as its sender, and c is its funding. */
  predicate IsLiveHtlc(a: Option<Account>, rail: string, wallets: set<string>, c: Tx) {
    && a.Some? && NamesHtlc(Some(a.value.accountType)) && a.value.sender.Some? && a.value.sender.value != ""
    && AddressKey(a.value.sender.value) in wallets && a.value.totalAmount.Some? && a.value.totalAmount.value > 0
    && EntersRail(c, rail) && AddressKey(c.sender) == AddressKey(a.value.sender.value) && c.value == a.value.totalAmount.value
  }

  /** c created the rail as an HTLC from one of the wallets, no later than the payment. */
  predicate CreatesHtlc(c: Tx, rail: string, wallets: set<string>, payment: Tx) {
    && EntersRail(c, rail) && AddressKey(c.sender) in wallets && NamesHtlc(c.recipientType) && c.value > 0
    && (payment.blockNumber.Some? ==> c.blockNumber.value <= payment.blockNumber.value)
  }

  /** The payment itself came out of the rail as an HTLC, whose one creation the history shows. */
  ghost predicate IsSpentHtlc(history: seq<Tx>, rail: string, wallets: set<string>, payment: Option<Tx>) {
    && payment.Some? && AddressKey(payment.value.sender) == AddressKey(rail) && NamesHtlc(payment.value.senderType)
    && exists i :: IsOnlyCreation(history, rail, wallets, payment.value, i)
  }

  ghost predicate IsOnlyCreation(history: seq<Tx>, rail: string, wallets: set<string>, payment: Tx, i: nat) {
    && i < |history| && CreatesHtlc(history[i], rail, wallets, payment)
    && forall j | 0 <= j < |history| && j != i :: !CreatesHtlc(history[j], rail, wallets, payment)
  }

  /** The reader answered what a rail proof asks. */
  predicate IsAnswered(rpc: Rpc, rail: string) {
    && rpc.history.Some? && rpc.history.value(rail).Reply? && (rpc.account.Some? ==> rpc.account.value(rail).Reply?)
  }

  /**
   * The reader showed the rail as an HTLC of one of the wallets: a live one with its exact funding, or the one the payment
   * was spent from with its one creation.
   */
  ghost predicate FundedRail(rpc: Rpc, wallets: set<string>, rail: string, payment: Option<Tx>) {
    && AddressKey(rail) != "" && IsAnswered(rpc, rail)
    && var history := rpc.history.value(rail).value;
       || (rpc.account.Some? && exists c | c in history :: IsLiveHtlc(rpc.account.value(rail).value, rail, wallets, c))
       || IsSpentHtlc(history, rail, wallets, payment)
  }

  /** The payer is the holder, a frozen wallet, a frozen rail, or an HTLC shown to be funded by a frozen wallet. */
  ghost predicate PaidFromAuthorised(intent: PassIntent, tx: Tx, rpc: Rpc) {
    var key := AddressKey(tx.sender);
    key == AddressKey(intent.currentHolder) || key in FrozenWallets(intent) || key in FrozenRails(intent)
    || FundedRail(rpc, FrozenWallets(intent), tx.sender, Some(tx))
  }

  /** The transaction pays exactly one NIM to the committed recipient, with the committed data when there is one. */
  predicate PaysTheIntent(intent: PassIntent, tx: Tx) {
    && AddressKey(tx.to) == AddressKey(intent.recipient) && tx.value == ONE_NIM_IN_LUNA
    && (intent.recipientData.Some? ==> tx.recipientData == intent.recipientData)
  }

  lemma {:induction false} NoCreation(history: seq<Tx>, rail: string, wallets: set<string>, payment: Tx)
    ensures CountCreations(history, AddressKey(rail), wallets, payment) == 0
       <==> forall j | 0 <= j < |history| :: !CreatesHtlc(history[j], rail, wallets, payment)
  {
    if |history| > 0 {
      NoCreation(history[1..], rail, wallets, payment);
      assert IsCreation(history[0], AddressKey(rail), wallets, payment) <==> CreatesHtlc(history[0], rail, wallets, payment);
      assert forall j | 0 < j < |history| :: history[j] == history[1..][j - 1];
    }
  }

  lemma {:induction false} OneCreation(history: seq<Tx>, rail: string, wallets: set<string>, payment: Tx)
    ensures CountCreations(history, AddressKey(rail), wallets, payment) == 1
       <==> exists i :: IsOnlyCreation(history, rail, wallets, payment, i)
  {
    if |history| > 0 {
      var rest := history[1..];
      assert forall j | 0 < j < |history| :: history[j] == rest[j - 1];
      if CreatesHtlc(history[0], rail, wallets, payment) {
        NoCreation(rest, rail, wallets, payment);
        if CountCreations(rest, AddressKey(rail), wallets, payment) == 0 { assert IsOnlyCreation(history, rail, wallets, payment, 0); }
      } else {
        OneCreation(rest, rail, wallets, payment);
        if i: nat :| IsOnlyCreation(rest, rail, wallets, payment, i) { assert IsOnlyCreation(history, rail, wallets, payment, i + 1); }
        if i: nat :| IsOnlyCreation(history, rail, wallets, payment, i) {
          assert CreatesHtlc(history[i], rail, wallets, payment);
          assert i > 0;
          assert IsOnlyCreation(rest, rail, wallets, payment, i - 1);
        }
      }
    }
  }

  lemma LiveProofShown(account: Option<Account>, history: seq<Tx>, rail: string, wallets: set<string>)
    ensures LiveProof(account, history, AddressKey(rail), wallets) <==> exists c | c in history :: IsLiveHtlc(account, rail, wallets, c)
  {
    if LiveProof(account, history, AddressKey(rail), wallets) {
      var i :| 0 <= i < |history| && IsLiveFunding(history[i], AddressKey(rail), account.value.sender.value, account.value.totalAmount.value);
      assert history[i] in history && IsLiveHtlc(account, rail, wallets, history[i]);
    }
    if c :| c in history && IsLiveHtlc(account, rail, wallets, c) {
      var i :| 0 <= i < |history| && history[i] == c;
      assert IsLiveFunding(history[i], AddressKey(rail), account.value.sender.value, account.value.totalAmount.value);
    }
  }

  /** A rail is proven exactly when the reader shows it as an HTLC funded by a frozen wallet; a failed read proves nothing. */
  lemma RailIsProvenExactlyWhen(intent: PassIntent, rail: string, payment: Option<Tx>, rpc: Rpc)
    ensures VerifyHtlcRail(intent, rail, payment, rpc) == Reply(true) <==> FundedRail(rpc, FrozenWallets(intent), rail, payment)
    ensures VerifyHtlcRail(intent, rail, payment, rpc).Down? <==> rpc.history.Some? && AddressKey(rail) != "" && !IsAnswered(rpc, rail)
  {
    if IsAnswered(rpc, rail) {
      var history, wallets := rpc.history.value(rail).value, FrozenWallets(intent);
      if payment.Some? { OneCreation(history, rail, wallets, payment.value); }
      if rpc.account.Some? { LiveProofShown(rpc.account.value(rail).value, history, rail, wallets); }
    }
  }

  /** An included transfer from a wallet into the rail, where the reader named the account, or both ends of its life, an HTLC. */
  ghost predicate RestsOn(c: Tx, rpc: Rpc, wallets: set<string>, rail: string, payment: Option<Tx>)
    requires rpc.account.Some? ==> rpc.account.value(rail).Reply?
  {
    && EntersRail(c, rail) && AddressKey(c.sender) in wallets
    && ((rpc.account.Some? && rpc.account.value(rail).value.Some? && NamesHtlc(Some(rpc.account.value(rail).value.value.accountType)))
        || (payment.Some? && NamesHtlc(payment.value.senderType) && NamesHtlc(c.recipientType)))
  }

  lemma FundingIsShown(rpc: Rpc, wallets: set<string>, rail: string, payment: Option<Tx>)
    requires FundedRail(rpc, wallets, rail, payment)
    ensures exists c | c in rpc.history.value(rail).value :: RestsOn(c, rpc, wallets, rail, payment)
  {
    var history := rpc.history.value(rail).value;
    if IsSpentHtlc(history, rail, wallets, payment) {
      var i: nat :| IsOnlyCreation(history, rail, wallets, payment.value, i);
      assert history[i] in history && RestsOn(history[i], rpc, wallets, rail, payment);
    } else {
      var c :| c in history && IsLiveHtlc(rpc.account.value(rail).value, rail, wallets, c);
      assert RestsOn(c, rpc, wallets, rail, payment);
    }
  }

  /** Either proof rests on an included transfer from a frozen wallet, and on an HTLC type the reader named. */
  lemma ProvenRailIsFunded(intent: PassIntent, rail: string, payment: Option<Tx>, rpc: Rpc)
    requires VerifyHtlcRail(intent, rail, payment, rpc) == Reply(true)
    ensures FundedRail(rpc, FrozenWallets(intent), rail, payment)
    ensures exists c | c in rpc.history.value(rail).value :: RestsOn(c, rpc, FrozenWallets(intent), rail, payment)
  {
    RailIsProvenExactlyWhen(intent, rail, payment, rpc);
    FundingIsShown(rpc, FrozenWallets(intent), rail, payment);
  }

  /** tx carries the clear-text tag of a legacy intent that has no commitment, or none. */
  predicate TagFits(intent: PassIntent, tx: Tx) {
    intent.recipientData.None? && tx.recipientData.Some? ==> tx.recipientData.value == BatonDataTag(intent.batonId, intent.sequence)
  }

  /** The payer may be asked about, or need not be. */
  predicate PayerIsKnown(intent: PassIntent, tx: Tx, rpc: Rpc) {
    var key := AddressKey(tx.sender);
    key in FrozenWallets(intent) || key in FrozenRails(intent) || rpc.history.None? || key == "" || IsAnswered(rpc, tx.sender)
  }

  ghost predicate PayerIsAuthorised(intent: PassIntent, tx: Tx, rpc: Rpc) {
    var key := AddressKey(tx.sender);
    || key == AddressKey(intent.currentHolder)
    || (tx.sender != "" && (key in FrozenWallets(intent) || key in FrozenRails(intent)
                            || FundedRail(rpc, FrozenWallets(intent), tx.sender, Some(tx))))
  }

  lemma PayerIsJudged(intent: PassIntent, tx: Tx, rpc: Rpc)
    ensures VerifiedPaymentRail(intent, tx, rpc).Down? <==> !PayerIsKnown(intent, tx, rpc)
    ensures PayerIsKnown(intent, tx, rpc) ==>
              (ValidateTransaction(intent, tx, VerifiedPaymentRail(intent, tx, rpc).value) == Err(WRONG_SENDER) <==> !PayerIsAuthorised(intent, tx, rpc))
  {
    RailIsProvenExactlyWhen(intent, tx.sender, Some(tx), rpc);
  }

  /**
   * A payment passes validation exactly when its payer is known and authorised and it pays one NIM to the recipient with the
   * committed data; each way to fail has its own answer, in this order.
   */
  lemma ValidatedExactlyWhen(intent: PassIntent, tx: Tx, rpc: Rpc)
    ensures ValidateObserved(intent, tx, rpc)
         == if !PayerIsKnown(intent, tx, rpc) then Err(CHAIN_READ_FAILED)
            else if !PayerIsAuthorised(intent, tx, rpc) then Err(WRONG_SENDER)
            else if AddressKey(tx.to) != AddressKey(intent.recipient) then Err(WRONG_RECIPIENT)
            else if tx.value != 100_000 then Err(WRONG_AMOUNT)
            else if intent.recipientData.Some? && tx.recipientData.None? then Err(MISSING_HOP_COMMITMENT)
            else if intent.recipientData.Some? && tx.recipientData != intent.recipientData then Err(WRONG_HOP_COMMITMENT)
            else if !TagFits(intent, tx) then Err(WRONG_BATON_TAG)
            else Ok(())
  {
    PayerIsJudged(intent, tx, rpc);
  }

  /** Passing validation means the committed payment was made from an authorised source. */
  lemma ValidatedMeansPaid(intent: PassIntent, tx: Tx, rpc: Rpc)
    requires ValidateObserved(intent, tx, rpc).Ok?
    ensures PaysTheIntent(intent, tx) && PaidFromAuthorised(intent, tx, rpc)
  {
    ValidatedExactlyWhen(intent, tx, rpc);
  }

  /** A payer outside the authorization whose account is no HTLC is a stranger, whatever the authorised wallets have paid it. */
  lemma StrangersAreRefused(intent: PassIntent, tx: Tx, rpc: Rpc)
    requires var key := AddressKey(tx.sender); key != AddressKey(intent.currentHolder) && key !in FrozenWallets(intent) && key !in FrozenRails(intent)
    requires rpc.history.Some? && AddressKey(tx.sender) != "" ==> IsAnswered(rpc, tx.sender)
    requires !NamesHtlc(tx.senderType)
    requires rpc.account.Some? && rpc.account.value(tx.sender).Reply? && rpc.account.value(tx.sender).value.Some? ==>
               !NamesHtlc(Some(rpc.account.value(tx.sender).value.value.accountType))
    ensures ValidateObserved(intent, tx, rpc) == Err(WRONG_SENDER)
  {
    ValidatedExactlyWhen(intent, tx, rpc);
  }

  lemma BasicIsNoHtlc()
    ensures !NamesHtlc(Some("basic"))
  {
    SquashingDistributes("b", "asic");
    SquashingOneLetter('b');
    assert "b" + "asic" == "basic" && "b" == ['b'];
    StartsWithB(SquashType("basic"));
  }

  lemma StartsWithB(t: string)
    requires |t| > 0 && t[0] == 'b'
    ensures t !in {"htlc", "hashedtimelockcontract", "hashedtimelockedcontract", "2"}
  {
    assert "htlc"[0] == 'h' && "hashedtimelockcontract"[0] == 'h' && "hashedtimelockedcontract"[0] == 'h' && "2"[0] == '2';
  }

  /** The reader gave tx for this intent: by the recorded hash, or in the recipient's history under its own hash. */
  ghost predicate Shown(rpc: Rpc, intent: PassIntent, hash: Option<string>, tx: Tx) {
    || (hash.Some? && rpc.transaction(hash.value) == Reply(Some(tx)))
    || (hash == Some(tx.hash) && rpc.history.Some? && rpc.history.value(intent.recipient).Reply?
        && tx in rpc.history.value(intent.recipient).value)
  }

  /** tx was shown for the intent, included and past its macro block, paid as committed from an authorised source. */
  ghost predicate Evidence(intent: PassIntent, h: Hop, tx: Tx, first: Rpc, second: Rpc) {
    && Shown(first, intent, h.txHash, tx) && PaysTheIntent(intent, tx) && PaidFromAuthorised(intent, tx, second)
    && tx.blockNumber.Some? && second.head.Reply?
    && Policy.HasReachedFinality(tx.blockNumber, second.head.value, Policy.NIMIQ_POLICY)
    && h.value == Some(tx.value)
  }

  lemma AppliedFinalHasEvidence(s: Store, intent: PassIntent, hop: Hop, tx: Tx, now: int, first: Rpc, second: Rpc, c: string, k: int)
    requires Inv(s.relay) && GetHop(s.relay.hops, intent.batonId, intent.sequence) == Some(hop)
    requires Shown(first, intent, hop.txHash, tx)
    requires var t := AppliedTransaction(s, intent, hop, tx, now, second).0; IsFinal(t.relay.hops, c, k) && !IsFinal(s.relay.hops, c, k)
    ensures c == intent.batonId && k == intent.sequence
    ensures Evidence(intent, GetHop(AppliedTransaction(s, intent, hop, tx, now, second).0.relay.hops, c, k).value, tx, first, second)
  {
    var i := SlotIndex(s.relay.hops, intent.batonId, intent.sequence);
    if ValidateObserved(intent, tx, second).Ok? {
      ValidatedMeansPaid(intent, tx, second);
      PutThenGet(s.relay.hops, Patched(s.relay.hops[i], Verdict(tx, second.head.value, now)), c, k);
    } else {
      PutThenGet(s.relay.hops, Patched(s.relay.hops[i], StatusOnly(INVALID)), c, k);
    }
  }

  lemma ObservedIsValid(s: Store, b: string, hash: string)
    requires Inv(s.relay) && b in s.relay.intents && hash != "" && !IsFinal(s.relay.hops, b, s.relay.intents[b].sequence)
    ensures var (t, h) := ObservedBroadcast(s, s.relay.intents[b], hash);
            h.Ok? ==> Inv(t.relay) && GetHop(t.relay.hops, b, s.relay.intents[b].sequence) == Some(h.value) && h.value.txHash == Some(hash)
                      && forall c, k :: IsFinal(t.relay.hops, c, k) == IsFinal(s.relay.hops, c, k)
  {
    var intent := s.relay.intents[b];
    assert IsNext(s.relay, b, intent);
    MovesHere(s, b);
    BroadcastMovesOn(s, s, b, hash, May(false, false, false));
    PutKeepsCurrent(s.relay, HopFor(intent, Some(hash), PENDING));
    PutThenGet(s.relay.hops, HopFor(intent, Some(hash), PENDING), b, intent.sequence);
  }

  lemma DiscoveredFinalHasEvidence(s: Store, b: string, now: int, first: Rpc, second: Rpc, c: string, k: int) returns (tx: Tx)
    requires Inv(s.relay) && b in s.relay.intents && !HasAnyHash(s.relay, b)
    requires IsFinal(Reconciled(s, b, now, first, second).0.relay.hops, c, k) && !IsFinal(s.relay.hops, c, k)
    ensures c == b && k == s.relay.intents[b].sequence
    ensures Evidence(s.relay.intents[b], GetHop(Reconciled(s, b, now, first, second).0.relay.hops, c, k).value, tx, first, second)
  {
    var intent := s.relay.intents[b];
    assert IsNext(s.relay, b, intent);
    NextSlotIsOpen(s.relay, b);
    var found := Discovered(intent, first);
    if found == Ok(None) {
      ExpiredAddsNoFinal(s, intent, c, k);
      assert false;
    }
    tx := found.value.value;
    LastMatchIsAMatch(first.history.value(intent.recipient).value, Matcher(intent, first));
    var (t, h) := ObservedBroadcast(s, intent, tx.hash);
    ObservedIsValid(s, b, tx.hash);
    AppliedFinalHasEvidence(t, intent, h.value, tx, now, first, second, c, k);
  }

  predicate HasAnyHash(r: Relay, b: string)
    requires b in r.intents
  {
    SlotStatus(r, b).Some? && SlotStatus(r, b).value.txHash.Some?
  }

  /** Only reconciling b can make a slot FINAL: it is the open intent's slot, and the reader showed the payment. */
  lemma ReconciledFinalHasEvidence(s: Store, b: string, now: int, first: Rpc, second: Rpc, c: string, k: int) returns (tx: Tx)
    requires Inv(s.relay)
    requires IsFinal(Reconciled(s, b, now, first, second).0.relay.hops, c, k) && !IsFinal(s.relay.hops, c, k)
    ensures c == b && b in s.relay.intents && k == s.relay.intents[b].sequence
    ensures Evidence(s.relay.intents[b], GetHop(Reconciled(s, b, now, first, second).0.relay.hops, c, k).value, tx, first, second)
  {
    var intent := s.relay.intents[b];
    assert IsNext(s.relay, b, intent);
    NextSlotIsOpen(s.relay, b);
    var hop := GetHop(s.relay.hops, b, intent.sequence);
    if hop.None? || hop.value.txHash.None? {
      tx := DiscoveredFinalHasEvidence(s, b, now, first, second, c, k);
    } else {
      if first.transaction(hop.value.txHash.value) == Reply(None) {
        ExpiredAddsNoFinal(s, intent, c, k);
        assert false;
      }
      tx := first.transaction(hop.value.txHash.value).value.value;
      AppliedFinalHasEvidence(s, intent, hop.value, tx, now, first, second, c, k);
    }
  }

  lemma MovesHere(s: Store, b: string)
    requires Inv(s.relay)
    ensures Moves(s, s, b, May(false, false, false))
  {
  }

  lemma ExpiredAddsNoFinal(s: Store, intent: PassIntent, c: string, k: int)
    requires SlotsUnique(s.relay.hops) && IsFinal(Expired(s, intent).0.relay.hops, c, k)
    ensures IsFinal(s.relay.hops, c, k)
  {
    var i := SlotIndex(s.relay.hops, intent.batonId, intent.sequence);
    if i < |s.relay.hops| {
      PutThenGet(s.relay.hops, Patched(s.relay.hops[i], StatusOnly(INVALID)), c, k);
    } else {
      PutThenGet(s.relay.hops, HopFor(intent, None, INVALID), c, k);
    }
  }

  /** No other operation makes anything FINAL. */
  lemma OnlyReconcileFinalises(s: Store, e: Event, sha: HopCommitment.Digest, c: string, k: int)
    requires Inv(s.relay) && !e.Reconcile?
    requires IsFinal(Apply(s, e, sha).relay.hops, c, k)
    ensures IsFinal(s.relay.hops, c, k)
  {
    if e.Broadcast? && e.batonId in s.relay.intents {
      PutThenGet(s.relay.hops, HopFor(s.relay.intents[e.batonId], Some(e.hash), PENDING), c, k);
    }
    QuietEventsWrite(s, e, sha);
  }

  lemma QuietEventsWrite(s: Store, e: Event, sha: HopCommitment.Digest)
    requires !e.Reconcile?
    ensures Apply(s, e, sha).relay.hops == s.relay.hops
            || (e.Broadcast? && e.batonId in s.relay.intents
                && Apply(s, e, sha).relay.hops == PutHop(s.relay.hops, HopFor(s.relay.intents[e.batonId], Some(e.hash), PENDING)))
  {
  }

  /** A FINAL hop of any snapshot an operation journals is in the state the operation ends in. */
  lemma {:induction false} JournalledFinalsLast(r: Relay, trail: seq<Relay>, last: Relay, b: string, may: May)
    requires Inv(r) && Path(r, trail, last, b, may)
    ensures KeepsFinals(r, last) && forall i | 0 <= i < |trail| :: KeepsFinals(trail[i], last)
    decreases |trail|
  {
    if |trail| > 0 {
      assert Extends(r, r, b);
      StepExtends(r, r, trail[0], b, may);
      JournalledFinalsLast(trail[0], trail[1..], last, b, may);
      forall c, k | IsFinal(r.hops, c, k) ensures GetHop(last.hops, c, k) == GetHop(r.hops, c, k) {
        assert IsFinal(trail[0].hops, c, k);
      }
      forall i | 0 <= i < |trail| ensures KeepsFinals(trail[i], last) {
        if i > 0 { assert trail[i] == trail[1..][i - 1]; }
      }
    }
  }

  // ---------------------------------------------------------------- discovery

  ghost predicate IsMatchIn(history: seq<Tx>, matches: Tx -> bool, tx: Tx) {
    tx in history && matches(tx)
  }

  /** Discovery finds nothing, the only payment, or reports ambiguity, by the number of distinct matching hashes. */
  lemma DiscoveryIsExact(history: seq<Tx>, matches: Tx -> bool)
    ensures Chosen(history, matches) == Ok(None) <==> forall tx | tx in history :: !matches(tx)
    ensures Chosen(history, matches) == Err(AMBIGUOUS_MATCHING_BROADCAST)
       <==> exists x, y :: IsMatchIn(history, matches, x) && IsMatchIn(history, matches, y) && x.hash != y.hash
    ensures forall tx | Chosen(history, matches) == Ok(Some(tx)) ::
              IsMatchIn(history, matches, tx) && forall y | IsMatchIn(history, matches, y) :: y.hash == tx.hash
  {
    var hashes := MatchingHashes(history, matches);
    LastMatchIsAMatch(history, matches);
    forall tx | IsMatchIn(history, matches, tx) ensures tx.hash in hashes {
      var i :| 0 <= i < |history| && history[i] == tx;
    }
    if |hashes| > 1 {
      var h :| h in hashes;
      assert |hashes - {h}| > 0;
      var g :| g in hashes - {h};
      var i :| 0 <= i < |history| && matches(history[i]) && history[i].hash == h;
      var j :| 0 <= j < |history| && matches(history[j]) && history[j].hash == g;
      assert IsMatchIn(history, matches, history[i]) && IsMatchIn(history, matches, history[j]);
    } else {
      forall x, y | IsMatchIn(history, matches, x) && IsMatchIn(history, matches, y) ensures x.hash == y.hash {
        OnlyOne(hashes, x.hash, y.hash);
      }
    }
  }

  /** The same entries, in any order and with any repeats. */
  ghost predicate SameEntries(a: seq<Tx>, b: seq<Tx>) {
    forall tx :: tx in a <==> tx in b
  }

  /** Every other listing of the same entries is answered alike. */
  ghost predicate IsOrderFree(a: seq<Tx>, matches: Tx -> bool) {
    forall b | SameEntries(a, b) :: Chosen(b, matches) == Chosen(a, matches)
  }

  ghost predicate MatchesAreOne(a: seq<Tx>, matches: Tx -> bool) {
    forall x, y | IsMatchIn(a, matches, x) && IsMatchIn(a, matches, y) :: x == y
  }

  lemma ListedLast(a: seq<Tx>, matches: Tx -> bool, x: Tx)
    requires IsMatchIn(a, matches, x) && Chosen(a, matches).Ok?
    ensures SameEntries(a, a + [x]) && Chosen(a + [x], matches) == Ok(Some(x))
  {
    DiscoveryIsExact(a, matches);
    DiscoveryIsExact(a + [x], matches);
    assert forall tx :: IsMatchIn(a + [x], matches, tx) <==> IsMatchIn(a, matches, tx);
    assert (a + [x])[|a|] == x;
  }

  lemma ListedAlike(a: seq<Tx>, b: seq<Tx>, matches: Tx -> bool)
    requires SameEntries(a, b) && (Chosen(a, matches).Err? || MatchesAreOne(a, matches))
    ensures Chosen(b, matches) == Chosen(a, matches)
  {
    DiscoveryIsExact(a, matches);
    DiscoveryIsExact(b, matches);
    assert forall tx :: IsMatchIn(a, matches, tx) <==> IsMatchIn(b, matches, tx);
    var x, y := Chosen(a, matches), Chosen(b, matches);
    assert x.Err? <==> y.Err?;
    assert x == Ok(None) <==> y == Ok(None);
    if x.Ok? && x.value.Some? {
      assert IsMatchIn(a, matches, x.value.value) && IsMatchIn(a, matches, y.value.value);
    }
  }

  /**
   * Order and repetition of the history do not matter exactly when it is ambiguous anyway, or all its matching entries
   * are one transaction; a node that lists one hash with two contents is answered by the one it lists last.
   */
  lemma DiscoveryIgnoresOrderExactlyWhen(a: seq<Tx>, matches: Tx -> bool)
    ensures IsOrderFree(a, matches) <==> Chosen(a, matches).Err? || MatchesAreOne(a, matches)
  {
    forall b | SameEntries(a, b) && (Chosen(a, matches).Err? || MatchesAreOne(a, matches)) ensures Chosen(b, matches) == Chosen(a, matches) {
      ListedAlike(a, b, matches);
    }
    if IsOrderFree(a, matches) && Chosen(a, matches).Ok? {
      forall x, y | IsMatchIn(a, matches, x) && IsMatchIn(a, matches, y) ensures x == y {
        ListedLast(a, matches, x);
        ListedLast(a, matches, y);
      }
    }
  }

  /** The same payment listed once from the mempool and once included: turning the two entries round changes the answer. */
  lemma OrderDecidesBetweenTwoListings() returns (intent: PassIntent, rpc: Rpc, first: Tx, second: Tx)
    ensures first.hash == second.hash && SameEntries([first, second], [second, first])
    ensures Chosen([first, second], Matcher(intent, rpc)) == Ok(Some(second))
    ensures Chosen([second, first], Matcher(intent, rpc)) == Ok(Some(first)) && first != second
  {
    intent := PassIntent("m", 1, None, "NQ1", "NQ2", ["NQ1"], "n", Some("c"), 0);
    rpc := Rpc(_ => Down, Down, None, None);
    first := Tx("h", "NQ1", "NQ2", ONE_NIM_IN_LUNA, None, None, None, Some("c"));
    second := first.(blockNumber := Some(7));
    NimiqAddressIsAWallet("NQ1");
    assert "NQ1" in Sources(intent);
    assert Matcher(intent, rpc)(first) && Matcher(intent, rpc)(second);
    BothListed(first, second, Matcher(intent, rpc));
    BothListed(second, first, Matcher(intent, rpc));
  }

  lemma BothListed(x: Tx, y: Tx, matches: Tx -> bool)
    requires matches(x) && matches(y) && x.hash == y.hash
    ensures Chosen([x, y], matches) == Ok(Some(y))
  {
    DiscoveryIsExact([x, y], matches);
    assert forall tx :: IsMatchIn([x, y], matches, tx) ==> tx.hash == x.hash;
    assert [x, y][|[x, y]| - 1] == y;
  }
}
