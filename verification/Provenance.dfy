/** Where the money behind a FINAL hop came from, over whole runs with crashes. */
module Provenance {
  import opened Domain
  import opened PaymentRails
  import opened Relay
  import opened RelayService
  import opened RelaySafety
  import opened RelayRuns
  import RelayTheorems
  import HopCommitment
  import opened PgRelayTables
  import opened Missions
  import opened MissionService
  import MissionSafety
  import opened Coordinator
  import opened System
  import opened Delivery
  import Signatures

  // ---------------------------------------------------------------- what the run log must show

  /**
   * The authorization that opened the intent, signed by its holder for this mission, this sequence and the invitation it
   * names, if any: the intent pays from exactly the wallets named then.
   */
  predicate Authorises(t: Turn, i: PassIntent) {
    && t.event.Authorize? && t.event.request.missionId == i.batonId && t.event.nonce == i.nonce && t.at == i.createdAt
    && t.event.request.auth.wallet == i.currentHolder
    && t.event.request.auth.action == AUTHORIZE_PASS && t.event.request.auth.missionId == Some(i.batonId)
    && t.event.request.auth.sequence == Some(i.sequence)
    && (t.event.request.auth.invitationId.Some? ==> i.invitationId == t.event.request.auth.invitationId)
    && FrozenWallets(i) == set w | w in [i.currentHolder] + t.event.request.wallets :: AddressKey(w)
  }

  /** A rail freeze at which the chain reader showed the rail as a live HTLC with its funding from one of those wallets. */
  ghost predicate ProvesRail(t: Turn, i: PassIntent, key: string) {
    && t.event.FreezeRails? && t.event.id == i.batonId
    && exists rail :: AddressKey(rail) == key && RelayTheorems.FundedRail(t.event.rpc, FrozenWallets(i), rail, None)
  }

  /** Wallets from the authorization, every rail from a proof. */
  ghost predicate Sourced(i: PassIntent, log: seq<Turn>) {
    && (exists j :: 0 <= j < |log| && Authorises(log[j], i))
    && forall key | key in FrozenRails(i) :: exists j :: 0 <= j < |log| && ProvesRail(log[j], i, key)
  }

  function EnvOf(t: Turn, id: string): Option<Env> {
    match t.event
    case Reconcile(b, env) => if b == id then Some(env) else None
    case SweepNext(_, b, env) => if b == id then Some(env) else None
    case _ => None
  }

  /** At this step the chain reader showed the payment of intent i that made h FINAL. */
  ghost predicate Settles(t: Turn, i: PassIntent, h: Hop, tx: Tx) {
    && i.batonId == h.batonId && EnvOf(t, i.batonId).Some?
    && var env := EnvOf(t, i.batonId).value; RelayTheorems.Evidence(i, h, tx, env.first, env.second)
  }

  ghost predicate SettledAt(h: Hop, log: seq<Turn>, j: nat, i: PassIntent, tx: Tx) {
    j < |log| && Sourced(i, log[..j]) && Settles(log[j], i, h, tx)
  }

  /** Some earlier step settled the hop from a sourced intent. */
  ghost predicate IsPaid(h: Hop, log: seq<Turn>) {
    exists j: nat, i, tx :: SettledAt(h, log, j, i, tx)
  }

  ghost predicate SourcedIn(r: Relay, log: seq<Turn>) {
    && (forall b | b in r.intents :: Sourced(r.intents[b], log))
    && (forall b, k | IsFinal(r.hops, b, k) :: IsPaid(GetHop(r.hops, b, k).value, log))
  }

  ghost predicate ProvenanceInv(x: Sys, log: seq<Turn>) {
    && (forall i | x.persisted <= i < |x.coord.store.journal| :: SourcedIn(x.coord.store.journal[i], log))
    && (forall b | b in x.db.passIntents :: Sourced(x.db.passIntents[b], log))
  }

  // ---------------------------------------------------------------- the log only grows

  lemma SourcedStays(i: PassIntent, log: seq<Turn>, t: Turn)
    requires Sourced(i, log)
    ensures Sourced(i, log + [t])
  {
    var more := log + [t];
    var j :| 0 <= j < |log| && Authorises(log[j], i);
    assert more[j] == log[j];
    forall key | key in FrozenRails(i) ensures exists k :: 0 <= k < |more| && ProvesRail(more[k], i, key) {
      var k :| 0 <= k < |log| && ProvesRail(log[k], i, key);
      assert more[k] == log[k];
    }
  }

  lemma PaidStays(h: Hop, log: seq<Turn>, t: Turn)
    requires IsPaid(h, log)
    ensures IsPaid(h, log + [t])
  {
    var j: nat, i, tx :| SettledAt(h, log, j, i, tx);
    var more := log + [t];
    assert j < |log| && more[..j] == log[..j] && more[j] == log[j];
    assert SettledAt(h, more, j, i, tx);
  }

  lemma SourcedInStays(r: Relay, log: seq<Turn>, t: Turn)
    requires SourcedIn(r, log)
    ensures SourcedIn(r, log + [t])
  {
    forall b | b in r.intents ensures Sourced(r.intents[b], log + [t]) { SourcedStays(r.intents[b], log, t); }
    forall b, k | IsFinal(r.hops, b, k) ensures IsPaid(GetHop(r.hops, b, k).value, log + [t]) {
      PaidStays(GetHop(r.hops, b, k).value, log, t);
    }
  }

  lemma PaidSurvives(h: Hop, g: Hop, log: seq<Turn>)
    requires IsPaid(h, log) && SameHop(h, g)
    ensures IsPaid(g, log)
  {
    var j: nat, i, tx :| SettledAt(h, log, j, i, tx);
    assert SettledAt(g, log, j, i, tx);
  }

  // ---------------------------------------------------------------- opening and freezing

  predicate HasKey(wallets: seq<string>, key: string) {
    exists v :: v in wallets && AddressKey(v) == key
  }

  lemma {:induction false} DistinctKeys(wallets: seq<string>, seen: set<string>, w: string)
    requires w in wallets && AddressKey(w) != ""
    ensures AddressKey(w) in seen || HasKey(DistinctWallets(wallets, seen), AddressKey(w))
  {
    var key, kept := AddressKey(wallets[0]), DistinctWallets(wallets, seen);
    if AddressKey(w) !in seen {
      if AddressKey(w) == key {
        assert kept[0] == wallets[0];
      } else {
        assert w in wallets[1..];
        var more := if key == "" || key in seen then seen else seen + {key};
        DistinctKeys(wallets[1..], more, w);
        var v :| v in DistinctWallets(wallets[1..], more) && AddressKey(v) == AddressKey(w);
        assert v in kept;
      }
    }
  }

  lemma {:induction false} DistinctAreGiven(wallets: seq<string>, seen: set<string>)
    ensures forall w | w in DistinctWallets(wallets, seen) :: w in wallets
  {
    if |wallets| > 0 {
      var key := AddressKey(wallets[0]);
      DistinctAreGiven(wallets[1..], if key == "" || key in seen then seen else seen + {key});
    }
  }

  lemma DistinctWalletsFreeze(wallets: seq<string>)
    requires forall w | w in wallets :: IsNimiqAddress(w)
    ensures WalletKeys(DistinctWallets(wallets, {})) == (set w | w in wallets :: AddressKey(w))
    ensures RailKeys(DistinctWallets(wallets, {})) == {}
  {
    DistinctAreGiven(wallets, {});
    forall w | w in wallets ensures RailAddress(w).None? && AddressKey(w) in WalletKeys(DistinctWallets(wallets, {})) {
      NimiqAddressIsAWallet(w);
      DistinctKeys(wallets, {}, w);
      var v :| v in DistinctWallets(wallets, {}) && AddressKey(v) == AddressKey(w);
      NimiqAddressIsAWallet(v);
    }
  }

  /** A new intent freezes exactly the wallets it was given, and no rail. */
  lemma NewIntentWallets(r: Relay, q: PassRequest, nonce: string, at: int, sha: HopCommitment.Digest)
    requires IsNimiqAddress(q.currentHolder) && forall w | w in q.wallets :: IsNimiqAddress(w)
    ensures var i := NewIntent(r, q, nonce, at, sha);
            && FrozenWallets(i) == (set w | w in [q.currentHolder] + q.wallets :: AddressKey(w))
            && FrozenRails(i) == {} && |i.authorizedPaymentWallets| > 0
  {
    DistinctWalletsFreeze([q.currentHolder] + q.wallets);
    NimiqAddressIsAWallet(q.currentHolder);
  }

  /** Freezing adds rail markers only: the wallets stay as they are and every new rail is one of those given. */
  lemma {:induction false} AddRailsKeys(sources: seq<string>, rails: seq<string>)
    ensures WalletKeys(AddRails(sources, rails)) == WalletKeys(sources)
    ensures forall key | key in RailKeys(AddRails(sources, rails)) :: key in RailKeys(sources) || exists rail :: rail in rails && AddressKey(rail) == key
    decreases |rails|
  {
    if |rails| > 0 {
      MarkerRoundTrip(rails[0]);
      var more := AddRail(sources, rails[0]);
      AddRailsKeys(more, rails[1..]);
      assert WalletKeys(more) == WalletKeys(sources);
      forall key | key in RailKeys(AddRails(sources, rails))
        ensures key in RailKeys(sources) || exists rail :: rail in rails && AddressKey(rail) == key
      {
        if key !in RailKeys(more) {
          var rail :| rail in rails[1..] && AddressKey(rail) == key;
          assert rail in rails;
        } else if key !in RailKeys(sources) {
          assert rails[0] in rails && AddressKey(rails[0]) == key;
        }
      }
    }
  }

  lemma {:induction false} ProvenRails(intent: PassIntent, rails: seq<string>, rpc: Rpc)
    requires ProveRails(intent, rails, rpc).Ok?
    ensures forall rail | rail in rails :: RelayTheorems.FundedRail(rpc, FrozenWallets(intent), rail, None)
  {
    if |rails| > 0 {
      RelayTheorems.ProvenRailIsFunded(intent, rails[0], None, rpc);
      ProvenRails(intent, rails[1..], rpc);
    }
  }

  /** Freezing never changes the frozen wallets, and every rail it adds was shown funded from them. */
  lemma FreezeKeepsSources(s: Store, b: string, candidates: seq<string>, at: int, rpc: Rpc, flushed: bool, log: seq<Turn>,
                           fill: InvitationLookup)
    requires b in s.relay.intents && s.relay.intents[b].batonId == b && |s.relay.intents[b].authorizedPaymentWallets| > 0
    requires Sourced(s.relay.intents[b], log) && b in FrozenVerified(s, b, candidates, at, rpc).0.relay.intents
    ensures var i := FrozenVerified(s, b, candidates, at, rpc).0.relay.intents[b];
            FrozenWallets(i) == FrozenWallets(s.relay.intents[b])
            && Sourced(i, log + [Turn(FreezeRails(b, candidates, rpc, flushed), at, fill)])
  {
    var was, t := s.relay.intents[b], Turn(FreezeRails(b, candidates, rpc, flushed), at, fill);
    var i := FrozenVerified(s, b, candidates, at, rpc).0.relay.intents[b];
    if i == was {
      SourcedStays(was, log, t);
    } else {
      var rails := PendingRails(was, candidates);
      ProvenRails(was, rails, rpc);
      MoreRailsAreSourced(was, i, rails, log, t);
    }
  }

  lemma MoreRailsAreSourced(was: PassIntent, i: PassIntent, rails: seq<string>, log: seq<Turn>, t: Turn)
    requires Sourced(was, log) && |was.authorizedPaymentWallets| > 0 && t.event.FreezeRails? && t.event.id == was.batonId
    requires i == was.(authorizedPaymentWallets := AddRails(was.authorizedPaymentWallets, rails))
    requires forall rail | rail in rails :: RelayTheorems.FundedRail(t.event.rpc, FrozenWallets(was), rail, None)
    ensures FrozenWallets(i) == FrozenWallets(was) && Sourced(i, log + [t])
  {
    var more := log + [t];
    AddRailsKeys(was.authorizedPaymentWallets, rails);
    AddRailsAddsOnlyRails(was.authorizedPaymentWallets, rails);
    assert FrozenWallets(i) == FrozenWallets(was);
    SourcedStays(was, log, t);
    var j :| 0 <= j < |more| && Authorises(more[j], was);
    assert Authorises(more[j], i);
    forall key | key in FrozenRails(i) ensures exists k :: 0 <= k < |more| && ProvesRail(more[k], i, key) {
      if key in FrozenRails(was) {
        var k :| 0 <= k < |more| && ProvesRail(more[k], was, key);
        assert ProvesRail(more[k], i, key);
      } else {
        var rail :| rail in rails && AddressKey(rail) == key;
        assert ProvesRail(t, i, key) && more[|log|] == t;
      }
    }
  }

  // ---------------------------------------------------------------- every step keeps the provenance

  ghost predicate StoreSourced(s: Store, from: nat, log: seq<Turn>) {
    SourcedIn(s.relay, log) && forall i | from <= i < |s.journal| :: SourcedIn(s.journal[i], log)
  }

  predicate IntentsFrom(r: Relay, q: Relay) {
    forall b | b in q.intents :: b in r.intents && q.intents[b] == r.intents[b]
  }

  lemma MovesKeepIntents(s: Store, t: Store, c: string, may: May)
    requires RelaySafety.Inv(s.relay) && Moves(s, t, c, may) && !may.opens && !may.freezes
    ensures IntentsFrom(s.relay, t.relay) && forall i | |s.journal| <= i < |t.journal| :: IntentsFrom(s.relay, t.journal[i])
  {
    forall x, y | IntentsFrom(s.relay, x) && Step(x, y, c, may) ensures IntentsFrom(s.relay, y) {
      var m :| RelaySafety.Legal(x, m) && BatonOf(m) == c && Permits(may, m) && y == Mutate(x, m);
    }
    MovesKeep(s, t, c, may, x => IntentsFrom(s.relay, x));
  }

  lemma FinalsOfSnapshots(s: Store, t: Store, c: string, may: May)
    requires RelaySafety.Inv(s.relay) && Moves(s, t, c, may)
    ensures forall i | |s.journal| <= i < |t.journal| :: KeepsFinals(t.journal[i], t.relay)
  {
    var trail := t.journal[|s.journal|..];
    RelayTheorems.JournalledFinalsLast(s.relay, trail, t.relay, c, may);
    forall i | |s.journal| <= i < |t.journal| ensures KeepsFinals(t.journal[i], t.relay) {
      assert t.journal[i] == trail[i - |s.journal|];
    }
  }

  lemma FromIsSourced(r: Relay, q: Relay, last: Relay, log: seq<Turn>)
    requires SourcedIn(r, log) && IntentsFrom(r, q) && KeepsFinals(q, last)
    requires forall b, k | IsFinal(last.hops, b, k) :: IsPaid(GetHop(last.hops, b, k).value, log)
    ensures SourcedIn(q, log)
  {
    forall b, k | IsFinal(q.hops, b, k) ensures IsPaid(GetHop(q.hops, b, k).value, log) {
      assert IsFinal(last.hops, b, k);
    }
  }

  /** An operation that opens and freezes nothing, once its FINAL hops are paid for. */
  lemma MovesKeepSourced(s: Store, t: Store, c: string, may: May, from: nat, log: seq<Turn>)
    requires RelaySafety.Inv(s.relay) && Moves(s, t, c, may) && !may.opens && !may.freezes && StoreSourced(s, from, log)
    requires forall b, k | IsFinal(t.relay.hops, b, k) :: IsPaid(GetHop(t.relay.hops, b, k).value, log)
    ensures StoreSourced(t, from, log)
  {
    MovesKeepIntents(s, t, c, may);
    FinalsOfSnapshots(s, t, c, may);
    FromIsSourced(s.relay, t.relay, t.relay, log);
    forall i | from <= i < |t.journal| ensures SourcedIn(t.journal[i], log) {
      if i < |s.journal| {
        assert t.journal[i] == s.journal[i];
      } else {
        FromIsSourced(s.relay, t.journal[i], t.relay, log);
      }
    }
  }

  lemma CancelKeepsSourced(s: Store, b: string, from: nat, log: seq<Turn>)
    requires RelaySafety.Inv(s.relay) && StoreSourced(s, from, log)
    ensures StoreSourced(CancelledPass(s, b).0, from, log)
  {
    CancelledPassMoves(s, b);
    MovesKeepSourced(s, CancelledPass(s, b).0, b, May(false, true, false), from, log);
  }

  lemma CommitKeepsSourced(s: Store, q: Relay, b: string, from: nat, log: seq<Turn>)
    requires StoreSourced(s, from, log) && q.hops == s.relay.hops
    requires forall c | c in q.intents && c != b :: c in s.relay.intents && q.intents[c] == s.relay.intents[c]
    requires b in q.intents ==> Sourced(q.intents[b], log)
    ensures StoreSourced(Commit(s, q), from, log)
  {
    forall c | c in q.intents ensures Sourced(q.intents[c], log) {
      if c != b { assert Sourced(s.relay.intents[c], log); }
    }
    assert SourcedIn(q, log);
  }

  lemma CreatedKeepsSourced(s: Store, q: PassRequest, t: Turn, sha: HopCommitment.Digest, from: nat, log: seq<Turn>)
    requires StoreSourced(s, from, log) && t in log && t.event.Authorize? && t.event.request.missionId == q.batonId
    requires q.currentHolder == t.event.request.auth.wallet && q.wallets == t.event.request.wallets
    requires IsNimiqAddress(q.currentHolder) && forall w | w in q.wallets :: IsNimiqAddress(w)
    requires Signatures.SignedFor(t.event.request.auth, q.batonId, 1, q.invitationId)
    requires Created(s, q, t.event.nonce, t.at, sha).1.Ok? ==> CurrentSequence(s.relay.hops, q.batonId) == 0
    ensures StoreSourced(Created(s, q, t.event.nonce, t.at, sha).0, from, log)
  {
    if Created(s, q, t.event.nonce, t.at, sha).1.Ok? {
      var i := NewIntent(s.relay, q, t.event.nonce, t.at, sha);
      NewIntentWallets(s.relay, q, t.event.nonce, t.at, sha);
      var j :| 0 <= j < |log| && log[j] == t;
      assert Authorises(log[j], i);
      CommitKeepsSourced(s, Mutate(s.relay, Open(i)), q.batonId, from, log);
    }
  }

  /** The creator can open only the mission's first delivery. */
  lemma CreatorOpensTheFirst(r: Relay, m: MissionStore, b: string, p: Protector)
    requires MissionSafety.Inv(m, p) && Good(r, m, p) && b in m.missions
    ensures CurrentSequence(r.hops, b) == 0 || (b in r.holders && r.holders[b] != m.missions[b].creator)
  {
    FinalClosesTheMission(r, m, b, p);
  }

  lemma AuthorizeKeepsSourced(x: Sys, t: Turn, c: Crypto, from: nat, log: seq<Turn>)
    requires SysInv(x, c.protector) && System.Legal(x, t) && t.event.Authorize? && t in log && StoreSourced(x.coord.store, from, log)
    ensures StoreSourced(Authorized(x.coord.missions, x.coord.store, t.event.request, t.event.nonce, t.at, c.sha, c.protector, t.event.flushed).0,
                         from, log)
  {
    var s, q := x.coord.store, t.event.request;
    LiveIsGood(x, c.protector);
    var result := Authorized(x.coord.missions, s, q, t.event.nonce, t.at, c.sha, c.protector, t.event.flushed).0;
    if result != s {
      var request := AuthorizedRequest(s, x.coord.missions, q, t.event.nonce, t.at, c, t.event.flushed);
      CreatorOpensTheFirst(s.relay, x.coord.missions, q.missionId, c.protector);
      AuthorizationKeepsSourced(s, result, request, t, c.sha, from, log);
    }
  }

  lemma AuthorizationKeepsSourced(s: Store, result: Store, q: PassRequest, t: Turn, sha: HopCommitment.Digest, from: nat, log: seq<Turn>)
    requires RelaySafety.Inv(s.relay) && StoreSourced(s, from, log) && t in log && t.event.Authorize? && t.event.request.missionId == q.batonId
    requires q.currentHolder == t.event.request.auth.wallet && q.wallets == t.event.request.wallets
    requires IsNimiqAddress(q.currentHolder) && forall w | w in q.wallets :: IsNimiqAddress(w)
    requires Signatures.SignedFor(t.event.request.auth, q.batonId, 1, q.invitationId)
    requires CurrentSequence(s.relay.hops, q.batonId) == 0 || (q.batonId in s.relay.holders && s.relay.holders[q.batonId] != q.currentHolder)
    requires IsAuthorization(s, result, q, t.event.nonce, t.at, sha)
    ensures StoreSourced(result, from, log)
  {
    CancelKeepsSourced(s, q.batonId, from, log);
    CreatedKeepsSourced(s, q, t, sha, from, log);
    CreatedKeepsSourced(CancelledPass(s, q.batonId).0, q, t, sha, from, log);
  }

  lemma AuthorizedRequest(s: Store, m: MissionStore, q: AuthorizeRequest, nonce: string, at: int, c: Crypto, flushed: bool)
    returns (request: PassRequest)
    requires MissionSafety.Inv(m, c.protector)
    ensures var t := Authorized(m, s, q, nonce, at, c.sha, c.protector, flushed).0;
            t != s ==>
              && IsAuthorization(s, t, request, nonce, at, c.sha) && request.batonId == q.missionId
              && request.currentHolder == q.auth.wallet && request.wallets == q.wallets && IsNimiqAddress(request.currentHolder)
              && q.missionId in m.missions && request.currentHolder == m.missions[q.missionId].creator
              && Signatures.SignedFor(q.auth, q.missionId, 1, request.invitationId)
  {
    request := AuthorizedShape(s, m, q, nonce, at, c, flushed);
    if Authorized(m, s, q, nonce, at, c.sha, c.protector, flushed).0 != s {
      assert MissionSafety.MissionOk(q.missionId, m.missions[q.missionId], c.protector);
      Signatures.CheckedIsSigned(m, s.relay, q);
    }
  }

  lemma FreezeKeepsStoreSourced(s: Store, t: Turn, from: nat, log: seq<Turn>)
    requires t.event.FreezeRails? && SourcedIn(s.relay, log) && StoreSourced(s, from, log + [t])
    requires var b := t.event.id;
             b in s.relay.intents ==> s.relay.intents[b].batonId == b && |s.relay.intents[b].authorizedPaymentWallets| > 0
    ensures StoreSourced(FrozenVerified(s, t.event.id, t.event.candidates, t.at, t.event.rpc).0, from, log + [t])
  {
    var b := t.event.id;
    var result := FrozenVerified(s, b, t.event.candidates, t.at, t.event.rpc).0;
    if result != s {
      if b in result.relay.intents {
        FreezeKeepsSources(s, b, t.event.candidates, t.at, t.event.rpc, t.event.flushed, log, t.fill);
      }
      CommitKeepsSourced(s, result.relay, b, from, log + [t]);
    }
  }

  lemma RecordKeepsSourced(s: Store, id: string, hash: string, at: int, from: nat, log: seq<Turn>)
    requires RelaySafety.Inv(s.relay) && StoreSourced(s, from, log) && hash != ""
    ensures StoreSourced(RecordedBroadcast(s, id, hash, at).0, from, log)
  {
    var t := RecordedBroadcast(s, id, hash, at).0;
    var may := May(false, IsStaleAt(s.relay, id, at), false);
    RecordedBroadcastMoves(s, id, hash, at);
    RecordingAddsNoFinal(s, id, hash, at);
    forall b, k | IsFinal(t.relay.hops, b, k) ensures IsPaid(GetHop(t.relay.hops, b, k).value, log) {
      assert IsFinal(s.relay.hops, b, k);
    }
    MovesKeepSourced(s, t, id, may, from, log);
  }

  lemma RecordingAddsNoFinal(s: Store, id: string, hash: string, at: int)
    requires RelaySafety.Inv(s.relay) && hash != ""
    ensures var now := RecordedBroadcast(s, id, hash, at).0.relay.hops;
            forall b, k | IsFinal(now, b, k) :: IsFinal(s.relay.hops, b, k) && GetHop(now, b, k) == GetHop(s.relay.hops, b, k)
  {
    if id in s.relay.intents {
      var h := HopFor(s.relay.intents[id], Some(hash), HopStatus.PENDING);
      RecordingWrites(s, id, hash, at);
      forall b, k ensures GetHop(PutHop(s.relay.hops, h), b, k) == if InSlot(h, b, k) then Some(h) else GetHop(s.relay.hops, b, k) {
        PutThenGet(s.relay.hops, h, b, k);
      }
    }
  }

  lemma RecordingWrites(s: Store, id: string, hash: string, at: int)
    requires id in s.relay.intents
    ensures RecordedBroadcast(s, id, hash, at).0.relay.hops
         in {s.relay.hops, PutHop(s.relay.hops, HopFor(s.relay.intents[id], Some(hash), HopStatus.PENDING))}
  {
  }

  /** What a reconcile makes FINAL is settled by that very step, from an intent sourced before it. */
  lemma ReconcileKeepsSourced(s: Store, id: string, env: Env, t: Turn, from: nat, log: seq<Turn>)
    requires RelaySafety.Inv(s.relay) && SourcedIn(s.relay, log) && StoreSourced(s, from, log + [t]) && EnvOf(t, id) == Some(env)
    ensures StoreSourced(Reconciled(s, id, env.at, env.first, env.second).0, from, log + [t])
  {
    var u := Reconciled(s, id, env.at, env.first, env.second).0;
    var may := May(false, IsStaleAt(s.relay, id, env.at), false);
    ReconciledMoves(s, id, env.at, env.first, env.second);
    MovesExtend(s, u, id, may);
    forall b, k | IsFinal(u.relay.hops, b, k) ensures IsPaid(GetHop(u.relay.hops, b, k).value, log + [t]) {
      if !IsFinal(s.relay.hops, b, k) {
        var tx := RelayTheorems.ReconciledFinalHasEvidence(s, id, env.at, env.first, env.second, b, k);
        assert IsNext(s.relay, id, s.relay.intents[id]);
        SlotHolds(u.relay.hops, b, k);
        SettledNow(GetHop(u.relay.hops, b, k).value, log, t, s.relay.intents[id], tx);
      }
    }
    MovesKeepSourced(s, u, id, may, from, log + [t]);
  }

  lemma SettledNow(h: Hop, log: seq<Turn>, t: Turn, i: PassIntent, tx: Tx)
    requires Sourced(i, log) && Settles(t, i, h, tx)
    ensures IsPaid(h, log + [t])
  {
    var more := log + [t];
    assert more[..|log|] == log && more[|log|] == t;
    assert SettledAt(h, more, |log|, i, tx);
  }

  /** A filled invitation changes nothing: one that was given stays. */
  lemma FilledIsSourced(i: PassIntent, g: PassIntent, log: seq<Turn>)
    requires Sourced(i, log) && g == i.(invitationId := g.invitationId) && (i.invitationId.Some? ==> g.invitationId == i.invitationId)
    ensures Sourced(g, log)
  {
    var j :| 0 <= j < |log| && Authorises(log[j], i);
    assert Sources(g) == Sources(i);
    assert FrozenRails(g) == FrozenRails(i) && FrozenWallets(g) == FrozenWallets(i);
    assert Authorises(log[j], g);
    forall key | key in FrozenRails(g) ensures exists k :: 0 <= k < |log| && ProvesRail(log[k], g, key) {
      var k :| 0 <= k < |log| && ProvesRail(log[k], i, key);
      assert ProvesRail(log[k], g, key);
    }
  }

  lemma RowIsSourced(x: Sys, i: nat, fill: InvitationLookup, log: seq<Turn>, b: string)
    requires ProvenanceInv(x, log) && x.persisted <= i < |x.coord.store.journal| && b in Persisted(x, i, fill).db.passIntents
    ensures Sourced(Persisted(x, i, fill).db.passIntents[b], log)
  {
    var s, row := x.coord.store.journal[i], Persisted(x, i, fill).db.passIntents[b];
    if b in s.intents && row == IntentRow(s.intents[b], fill) {
      assert SourcedIn(s, log);
      FilledIsSourced(s.intents[b], row, log);
    } else {
      assert row == x.db.passIntents[b];
    }
  }

  lemma PersistKeepsProvenance(x: Sys, i: nat, fill: InvitationLookup, log: seq<Turn>)
    requires ProvenanceInv(x, log) && x.persisted <= i < |x.coord.store.journal|
    ensures ProvenanceInv(Persisted(x, i, fill), log)
  {
    var db := Persisted(x, i, fill).db;
    forall b | b in db.passIntents ensures Sourced(db.passIntents[b], log) {
      RowIsSourced(x, i, fill, log, b);
    }
  }

  lemma FlushKeepsProvenance(x: Sys, ok: bool, fill: InvitationLookup, log: seq<Turn>)
    requires ProvenanceInv(x, log) && x.persisted < |x.coord.store.journal|
    ensures ProvenanceInv(Flushed(x, ok, fill), log)
  {
    if ok {
      assert Flushed(x, ok, fill) == Persisted(x, |x.coord.store.journal| - 1, fill);
      PersistKeepsProvenance(x, |x.coord.store.journal| - 1, fill, log);
    } else {
      assert Flushed(x, ok, fill) == x;
    }
  }

  lemma CrashKeepsProvenance(x: Sys, r: Relay, p: Protector, log: seq<Turn>)
    requires SysInv(x, p) && ProvenanceInv(x, log) && LoadedFrom(x.db, r)
    ensures SourcedIn(r, log)
  {
    var s := x.coord.store.journal[x.persisted];
    ReloadIsGood(x, s, r, p);
    forall b, k | IsFinal(r.hops, b, k) ensures IsPaid(GetHop(r.hops, b, k).value, log) {
      assert SameHop(GetHop(s.hops, b, k).value, GetHop(r.hops, b, k).value);
      PaidSurvives(GetHop(s.hops, b, k).value, GetHop(r.hops, b, k).value, log);
    }
  }

  /** The store part of one step. */
  lemma StepKeepsStoreSourced(x: Sys, t: Turn, c: Crypto, log: seq<Turn>)
    requires SysInv(x, c.protector) && System.Legal(x, t) && !t.event.Crash?
    requires SourcedIn(x.coord.store.relay, log) && StoreSourced(x.coord.store, x.persisted, log + [t])
    ensures StoreSourced(StoreAfter(x, t, c), x.persisted, log + [t])
  {
    var m, s, from, more := x.coord.missions, x.coord.store, x.persisted, log + [t];
    assert more[|log|] == t;
    if t.event.Authorize? {
      AuthorizeKeepsSourced(x, t, c, from, more);
    } else {
      LiveIsGood(x, c.protector);
      LinkedIntents(s.relay, m, c.protector);
      QuietStepKeepsStoreSourced(x, t, c, from, log);
    }
  }

  lemma LinkedIntents(r: Relay, m: MissionStore, p: Protector)
    requires Linked(r, m, p)
    ensures forall b | b in r.intents :: r.intents[b].batonId == b && |r.intents[b].authorizedPaymentWallets| > 0
  {
    forall b | b in r.intents ensures r.intents[b].batonId == b && |r.intents[b].authorizedPaymentWallets| > 0 {
      assert IntentLinked(b, r.intents[b], m, p);
    }
  }

  lemma QuietStepKeepsStoreSourced(x: Sys, t: Turn, c: Crypto, from: nat, log: seq<Turn>)
    requires RelaySafety.Inv(x.coord.store.relay) && !t.event.Authorize? && !t.event.Crash?
    requires forall b | b in x.coord.store.relay.intents ::
               x.coord.store.relay.intents[b].batonId == b && |x.coord.store.relay.intents[b].authorizedPaymentWallets| > 0
    requires SourcedIn(x.coord.store.relay, log) && StoreSourced(x.coord.store, from, log + [t])
    ensures StoreSourced(StoreAfter(x, t, c), from, log + [t])
  {
    var m, s := x.coord.missions, x.coord.store;
    match t.event
    case FreezeRails(id, candidates, rpc, _) => FreezeKeepsStoreSourced(s, t, from, log);
    case RecordHash(k, _) => if k < |x.calls| { RecordKeepsSourced(s, x.calls[k].id, x.calls[k].hash, t.at, from, log + [t]); }
    case Reconcile(id, env) =>
      ProjectionFollowsFlush(m, s, id, env, c.protector);
      ReconcileKeepsSourced(s, id, env, t, from, log);
    case SweepNext(k, id, env) =>
      VisitIsAReconcile(x.coord, PlanOf(x, k), id, env, c.protector);
      ProjectionFollowsFlush(m, s, id, env, c.protector);
      ReconcileKeepsSourced(s, id, env, t, from, log);
    case _ =>
  }

  lemma LogGrows(x: Sys, p: Protector, log: seq<Turn>, t: Turn)
    requires SysInv(x, p) && ProvenanceInv(x, log)
    ensures SourcedIn(x.coord.store.relay, log) && StoreSourced(x.coord.store, x.persisted, log + [t]) && ProvenanceInv(x, log + [t])
  {
    LastIsLive(x, p);
    forall i | x.persisted <= i < |x.coord.store.journal| ensures SourcedIn(x.coord.store.journal[i], log + [t]) {
      SourcedInStays(x.coord.store.journal[i], log, t);
    }
    forall b | b in x.db.passIntents ensures Sourced(x.db.passIntents[b], log + [t]) { SourcedStays(x.db.passIntents[b], log, t); }
  }

  /** Provenance only looks at the journal, the tables and the persisted index. */
  lemma SameStoreSameProvenance(x: Sys, y: Sys, log: seq<Turn>)
    requires ProvenanceInv(x, log) && y.coord.store == x.coord.store && y.db == x.db && y.persisted == x.persisted
    ensures ProvenanceInv(y, log)
  {
  }

  lemma StoreGrows(x: Sys, t: Store, log: seq<Turn>)
    requires ProvenanceInv(x, log) && StoreSourced(t, x.persisted, log)
    ensures ProvenanceInv(WithStore(x, t), log)
  {
  }

  lemma ApplyKeepsProvenance(x: Sys, t: Turn, c: Crypto, log: seq<Turn>)
    requires SysInv(x, c.protector) && System.Legal(x, t) && ProvenanceInv(x, log)
    ensures ProvenanceInv(Apply(x, t, c), log + [t])
  {
    LogGrows(x, c.protector, log, t);
    if t.event.Crash? { CrashStepKeepsProvenance(x, t, c, log + [t]); } else { QuietApplyKeepsProvenance(x, t, c, log); }
  }

  lemma CrashStepKeepsProvenance(x: Sys, t: Turn, c: Crypto, log: seq<Turn>)
    requires SysInv(x, c.protector) && System.Legal(x, t) && t.event.Crash? && ProvenanceInv(x, log)
    ensures ProvenanceInv(Apply(x, t, c), log)
  {
    CrashKeepsProvenance(x, t.event.reloaded, c.protector, log);
    CrashApplies(x, t, c);
    ReloadedIsSourced(x, Apply(x, t, c), t.event.reloaded, log);
  }

  lemma ReloadedIsSourced(x: Sys, y: Sys, r: Relay, log: seq<Turn>)
    requires ProvenanceInv(x, log) && SourcedIn(r, log) && y.db == x.db && y.coord.store == Store(r, [r])
    ensures ProvenanceInv(y, log)
  {
  }

  lemma QuietApplyKeepsProvenance(x: Sys, t: Turn, c: Crypto, log: seq<Turn>)
    requires SysInv(x, c.protector) && System.Legal(x, t) && !t.event.Crash? && ProvenanceInv(x, log + [t])
    requires SourcedIn(x.coord.store.relay, log) && StoreSourced(x.coord.store, x.persisted, log + [t])
    ensures ProvenanceInv(Apply(x, t, c), log + [t])
  {
    var z := WithStore(x, StoreAfter(x, t, c));
    StepKeepsStoreSourced(x, t, c, log);
    LiveIsValid(x, c.protector);
    StoreExtends(x, t, c);
    StoreGrows(x, StoreAfter(x, t, c), log + [t]);
    WritingKeepsProvenance(z, t, FlushReturns(x, t), log + [t]);
    ApplyParts(x, t, c);
    SameStoreSameProvenance(WrittenAfter(z, t, FlushReturns(x, t)), Apply(x, t, c), log + [t]);
  }

  lemma WritingKeepsProvenance(y: Sys, t: Turn, flushed: bool, log: seq<Turn>)
    requires ProvenanceInv(y, log) && y.persisted < |y.coord.store.journal| && !t.event.Crash? && (t.event.Persist? ==> y.persisted <= t.event.version)
    ensures ProvenanceInv(WrittenAfter(y, t, flushed), log) && WrittenAfter(y, t, flushed).coord == y.coord
  {
    if t.event.Persist? {
      if t.event.version < |y.coord.store.journal| { PersistKeepsProvenance(y, t.event.version, t.fill, log); }
    } else {
      FlushKeepsProvenance(y, flushed, t.fill, log);
    }
  }

  lemma RunKeepsProvenance(trace: seq<Turn>, c: Crypto)
    requires IsSound(c.protector) && LegalRun(START, trace, c)
    ensures SysInv(Run(START, trace, c), c.protector) && ProvenanceInv(Run(START, trace, c), trace)
  {
    StartIsReady(c.protector);
    NothingToProve();
    forall x, log, t | SysInv(x, c.protector) && System.Legal(x, t) && ProvenanceInv(x, log)
      ensures ProvenanceInv(Apply(x, t, c), log + [t])
    {
      ApplyKeepsProvenance(x, t, c, log);
    }
    RunKeeps(START, trace, c, [], (x, log) => ProvenanceInv(x, log));
    assert [] + trace == trace;
  }

  lemma NothingToProve()
    ensures ProvenanceInv(START, [])
  {
    assert forall b, k :: GetHop([], b, k) == None;
  }

  /**
   * In every run from an empty system, crashes and reloads included, each FINAL hop was settled by a step at which the
   * chain reader showed its payment: from a wallet named in the signed authorization, or from a rail that was shown
   * funded by one of those wallets, either when it was frozen or when the payment was checked.
   */
  lemma FinalHopsArePaidByTheirAuthorizers(trace: seq<Turn>, c: Crypto, b: string, k: int)
    requires IsSound(c.protector) && LegalRun(START, trace, c)
    requires IsFinal(Run(START, trace, c).coord.store.relay.hops, b, k)
    ensures IsPaid(GetHop(Run(START, trace, c).coord.store.relay.hops, b, k).value, trace)
  {
    RunKeepsProvenance(trace, c);
    LastIsLive(Run(START, trace, c), c.protector);
  }
}
