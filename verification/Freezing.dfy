/** Freezing payment rails: which rails are asked about, when a freeze succeeds, and exactly what it adds. */
module Freezing {
  import opened Domain
  import opened PaymentRails
  import opened Relay
  import opened RelayService
  import opened RelaySafety
  import opened RelayRuns
  import Provenance
  import RelayTheorems
  import Policy

  // ---------------------------------------------------------------- the list without repeats

  /** A nonempty address that is the first of its key. */
  predicate IsFirstSpelling(wallets: seq<string>, j: nat) {
    j < |wallets| && AddressKey(wallets[j]) != "" && forall k | 0 <= k < j :: AddressKey(wallets[k]) != AddressKey(wallets[j])
  }

  lemma {:induction false} DistinctExactly(wallets: seq<string>, seen: set<string>, w: string)
    ensures w in DistinctWallets(wallets, seen)
       <==> exists j: nat :: IsFirstSpelling(wallets, j) && wallets[j] == w && AddressKey(w) !in seen
  {
    if |wallets| > 0 {
      var key := AddressKey(wallets[0]);
      var kept := key != "" && key !in seen;
      var more := if kept then seen + {key} else seen;
      DistinctExactly(wallets[1..], more, w);
      assert DistinctWallets(wallets, seen) == (if kept then [wallets[0]] else []) + DistinctWallets(wallets[1..], more);
      if j: nat :| IsFirstSpelling(wallets, j) && wallets[j] == w && AddressKey(w) !in seen {
        if j > 0 {
          assert wallets[1..][j - 1] == w && forall k | 0 <= k < j - 1 :: wallets[1..][k] == wallets[k + 1];
          assert IsFirstSpelling(wallets[1..], j - 1);
        }
      }
      if j: nat :| IsFirstSpelling(wallets[1..], j) && wallets[1..][j] == w && AddressKey(w) !in more {
        FirstOneLater(wallets, j, seen, w);
      }
      if kept && w == wallets[0] { assert IsFirstSpelling(wallets, 0); }
    }
  }

  lemma FirstOneLater(wallets: seq<string>, j: nat, seen: set<string>, w: string)
    requires |wallets| > 0 && IsFirstSpelling(wallets[1..], j) && wallets[1..][j] == w
    requires var key := AddressKey(wallets[0]); AddressKey(w) !in (if key != "" && key !in seen then seen + {key} else seen)
    ensures IsFirstSpelling(wallets, j + 1) && wallets[j + 1] == w && AddressKey(w) !in seen
  {
    forall k | 0 <= k < j + 1 ensures AddressKey(wallets[k]) != AddressKey(w) {
      if k > 0 { assert wallets[k] == wallets[1..][k - 1]; }
    }
  }

  lemma {:induction false} WithoutExactly(rails: seq<string>, keys: set<string>, w: string)
    ensures w in Without(rails, keys) <==> w in rails && AddressKey(w) !in keys
  {
    if |rails| > 0 { WithoutExactly(rails[1..], keys, w); }
  }

  /** A candidate the freeze asks the chain about: the first spelling of a rail that is not frozen yet. */
  predicate IsAsked(i: PassIntent, candidates: seq<string>, j: nat) {
    IsFirstSpelling(candidates, j) && AddressKey(candidates[j]) !in FrozenRails(i)
  }

  lemma PendingExactly(i: PassIntent, candidates: seq<string>, w: string)
    ensures w in PendingRails(i, candidates) <==> exists j: nat :: IsAsked(i, candidates, j) && candidates[j] == w
  {
    DistinctExactly(candidates, {}, w);
    WithoutExactly(DistinctWallets(candidates, {}), FrozenRails(i), w);
    if j: nat :| IsFirstSpelling(candidates, j) && candidates[j] == w && AddressKey(w) !in FrozenRails(i) { assert IsAsked(i, candidates, j); }
  }

  // ---------------------------------------------------------------- every asked rail must be shown

  ghost predicate AllShown(i: PassIntent, candidates: seq<string>, rpc: Rpc) {
    forall j: nat | IsAsked(i, candidates, j) :: RelayTheorems.FundedRail(rpc, FrozenWallets(i), candidates[j], None)
  }

  lemma {:induction false} ProvenExactly(i: PassIntent, rails: seq<string>, rpc: Rpc)
    ensures ProveRails(i, rails, rpc).Ok? <==> forall w | w in rails :: RelayTheorems.FundedRail(rpc, FrozenWallets(i), w, None)
  {
    if |rails| > 0 {
      RelayTheorems.RailIsProvenExactlyWhen(i, rails[0], None, rpc);
      ProvenExactly(i, rails[1..], rpc);
      assert forall w :: w in rails <==> w == rails[0] || w in rails[1..];
    }
  }

  lemma AskedAreProven(i: PassIntent, candidates: seq<string>, rpc: Rpc)
    ensures ProveRails(i, PendingRails(i, candidates), rpc).Ok? <==> AllShown(i, candidates, rpc)
  {
    ProvenExactly(i, PendingRails(i, candidates), rpc);
    forall w ensures w in PendingRails(i, candidates) <==> exists j: nat :: IsAsked(i, candidates, j) && candidates[j] == w {
      PendingExactly(i, candidates, w);
    }
    if AllShown(i, candidates, rpc) {
      forall w | w in PendingRails(i, candidates) ensures RelayTheorems.FundedRail(rpc, FrozenWallets(i), w, None) {
        var j: nat :| IsAsked(i, candidates, j) && candidates[j] == w;
      }
    }
  }

  /** A rail the reader could not be asked about, and one it answered without showing it. */
  predicate IsUnread(rail: string, rpc: Rpc) {
    rpc.history.Some? && !RelayTheorems.IsAnswered(rpc, rail)
  }

  lemma {:induction false} RefusedBecause(i: PassIntent, rails: seq<string>, rpc: Rpc)
    requires ProveRails(i, rails, rpc).Err? && forall w | w in rails :: AddressKey(w) != ""
    ensures ProveRails(i, rails, rpc).reason == CHAIN_READ_FAILED ==> exists w :: w in rails && IsUnread(w, rpc)
    ensures ProveRails(i, rails, rpc).reason != CHAIN_READ_FAILED ==>
              && ProveRails(i, rails, rpc).reason == PAYMENT_RAIL_UNVERIFIED
              && exists w :: w in rails && !IsUnread(w, rpc) && !RelayTheorems.FundedRail(rpc, FrozenWallets(i), w, None)
  {
    RelayTheorems.RailIsProvenExactlyWhen(i, rails[0], None, rpc);
    assert rails[0] in rails;
    if ProveRails(i, rails, rpc) == ProveRails(i, rails[1..], rpc) && VerifyHtlcRail(i, rails[0], None, rpc) == Reply(true) {
      RefusedBecause(i, rails[1..], rpc);
    }
  }

  ghost predicate IsRefusal(i: PassIntent, candidates: seq<string>, rpc: Rpc, reason: Reason) {
    if reason == CHAIN_READ_FAILED then exists j: nat :: IsAsked(i, candidates, j) && IsUnread(candidates[j], rpc)
    else reason == PAYMENT_RAIL_UNVERIFIED
         && exists j: nat :: IsAsked(i, candidates, j) && !IsUnread(candidates[j], rpc)
                             && !RelayTheorems.FundedRail(rpc, FrozenWallets(i), candidates[j], None)
  }

  /** A refused freeze says whether a rail it asked about could not be read, or was read and not shown. */
  lemma RefusalsAreExplained(i: PassIntent, candidates: seq<string>, rpc: Rpc)
    requires !AllShown(i, candidates, rpc)
    ensures ProveRails(i, PendingRails(i, candidates), rpc).Err?
    ensures IsRefusal(i, candidates, rpc, ProveRails(i, PendingRails(i, candidates), rpc).reason)
  {
    AskedAreProven(i, candidates, rpc);
    var rails := PendingRails(i, candidates);
    forall w | w in rails ensures exists j: nat :: IsAsked(i, candidates, j) && candidates[j] == w { PendingExactly(i, candidates, w); }
    RefusedBecause(i, rails, rpc);
  }

  // ---------------------------------------------------------------- what is added

  /** The keys of everything asked for. */
  function KeysOf(candidates: seq<string>): set<string> {
    set w | w in candidates && AddressKey(w) != "" :: AddressKey(w)
  }

  lemma RailIsAdded(sources: seq<string>, rail: string)
    ensures var more := AddRail(sources, rail);
            && RailKeys(more) == RailKeys(sources) + (if AddressKey(rail) == "" then {} else {AddressKey(rail)})
            && |sources| <= |more| && more[..|sources|] == sources
  {
    var marker := RailMarker(rail);
    MarkerRoundTrip(rail);
    if AddressKey(rail) != "" {
      assert |marker| > |RAIL_PREFIX|;
      if HoldsMarker(sources, marker) {
        var k :| 0 <= k < |sources| && ToLower(sources[k]) == ToLower(marker);
        CaseDoesNotChangeTheRail(sources[k], marker);
        assert sources[k] in sources;
      }
    } else {
      assert marker == RAIL_PREFIX;
    }
  }

  lemma {:induction false} RailsAreAdded(sources: seq<string>, rails: seq<string>)
    ensures var more := AddRails(sources, rails);
            && RailKeys(more) == RailKeys(sources) + KeysOf(rails)
            && |sources| <= |more| && more[..|sources|] == sources
    decreases |rails|
  {
    if |rails| > 0 {
      RailIsAdded(sources, rails[0]);
      RailsAreAdded(AddRail(sources, rails[0]), rails[1..]);
      var more := AddRails(sources, rails);
      assert more[..|sources|] == more[..|AddRail(sources, rails[0])|][..|sources|];
      assert rails == [rails[0]] + rails[1..];
    }
  }

  /** Nobody has reported or found a payment for the open intent. */
  predicate IsUnhashed(r: Relay, i: PassIntent) {
    var hop := GetHop(r.hops, i.batonId, i.sequence); hop.None? || hop.value.txHash.None? || hop.value.txHash.value == ""
  }

  /** Only the wallet list differs, and it has grown at its end. */
  predicate IsExtended(r: Relay, t: Relay, id: string) {
    && id in r.intents && id in t.intents
    && var was, now := r.intents[id].authorizedPaymentWallets, t.intents[id].authorizedPaymentWallets;
       && |was| <= |now| && now[..|was|] == was
       && t == r.(intents := r.intents[id := r.intents[id].(authorizedPaymentWallets := now)])
  }

  lemma FrozenExactly(s: Store, id: string, rails: seq<string>)
    requires id in s.relay.intents && s.relay.intents[id].batonId == id && |s.relay.intents[id].authorizedPaymentWallets| > 0
    ensures var (t, res) := Frozen(s, id, rails);
            var i := s.relay.intents[id];
            if !IsUnhashed(s.relay, i) then t == s && res == Err(PAYMENT_RAIL_SNAPSHOT_LOCKED)
            else
              && IsExtended(s.relay, t.relay, id) && res == Ok(t.relay.intents[id]) && FrozenWallets(res.value) == FrozenWallets(i)
              && FrozenRails(res.value) == FrozenRails(i) + KeysOf(rails)
  {
    var i := s.relay.intents[id];
    ExtendedKeys(i, rails);
    var next := AddRails(i.authorizedPaymentWallets, rails);
    if next == i.authorizedPaymentWallets {
      assert s.relay.intents[id := i] == s.relay.intents;
    } else {
      assert s.relay.intents[id := i.(authorizedPaymentWallets := next)][id] == i.(authorizedPaymentWallets := next);
    }
  }

  lemma ExtendedKeys(i: PassIntent, rails: seq<string>)
    requires |i.authorizedPaymentWallets| > 0
    ensures var more := AddRails(i.authorizedPaymentWallets, rails);
            var now := i.(authorizedPaymentWallets := more);
            && |i.authorizedPaymentWallets| <= |more| && more[..|i.authorizedPaymentWallets|] == i.authorizedPaymentWallets
            && FrozenWallets(now) == FrozenWallets(i) && FrozenRails(now) == FrozenRails(i) + KeysOf(rails)
  {
    RailsAreAdded(i.authorizedPaymentWallets, rails);
    Provenance.AddRailsKeys(i.authorizedPaymentWallets, rails);
  }

  lemma PendingKeys(i: PassIntent, candidates: seq<string>)
    ensures FrozenRails(i) + KeysOf(PendingRails(i, candidates)) == FrozenRails(i) + KeysOf(candidates)
  {
    forall w | w in PendingRails(i, candidates) ensures w in candidates {
      PendingExactly(i, candidates, w);
    }
    forall w | w in candidates && AddressKey(w) != "" && AddressKey(w) !in FrozenRails(i) ensures AddressKey(w) in KeysOf(PendingRails(i, candidates)) {
      var j := FirstOfKey(candidates, AddressKey(w));
      PendingExactly(i, candidates, candidates[j]);
      assert IsAsked(i, candidates, j);
    }
  }

  lemma {:induction false} FirstOfKey(wallets: seq<string>, key: string) returns (j: nat)
    requires key != "" && exists w :: w in wallets && AddressKey(w) == key
    ensures IsFirstSpelling(wallets, j) && AddressKey(wallets[j]) == key
  {
    j := 0;
    if AddressKey(wallets[0]) != key {
      var w :| w in wallets && AddressKey(w) == key;
      assert w in wallets[1..];
      j := FirstOfKey(wallets[1..], key);
      assert forall k | 0 < k < j + 1 :: wallets[k] == wallets[1..][k - 1];
      j := j + 1;
    }
  }

  /**
   * A freeze succeeds exactly when an intent is open within its window, the chain shows every asked rail as an HTLC funded by
   * its wallets, no payment hash is in its slot and the flush returns. It then adds exactly the keys asked for, and no
   * wallet. A stale intent is closed; anything else changes nothing.
   */
  lemma FreezeExactly(s: Store, id: string, candidates: seq<string>, now: int, rpc: Rpc, flushed: bool)
    requires id in s.relay.intents ==> s.relay.intents[id].batonId == id && |s.relay.intents[id].authorizedPaymentWallets| > 0
    ensures var (t, res) := FrozenDurably(s, id, candidates, now, rpc, flushed);
            if id !in s.relay.intents then t == s && res == Err(NO_ACTIVE_INTENT)
            else
              var i := s.relay.intents[id];
              if now - i.createdAt > Policy.INTENT_VALIDITY_WINDOW_MS then
                t.relay == s.relay.(intents := s.relay.intents - {id}) && res == Err(STALE_INTENT)
              else if !AllShown(i, candidates, rpc) then
                t == s && res.Err? && IsRefusal(i, candidates, rpc, res.reason)
              else if !IsUnhashed(s.relay, i) then t == s && res == Err(PAYMENT_RAIL_SNAPSHOT_LOCKED)
              else
                && IsExtended(s.relay, t.relay, id) && FrozenWallets(t.relay.intents[id]) == FrozenWallets(i)
                && FrozenRails(t.relay.intents[id]) == FrozenRails(i) + KeysOf(candidates)
                && res == if flushed then Ok(t.relay.intents[id]) else Err(PERSISTENCE_FAILED)
  {
    if id in s.relay.intents {
      var i := s.relay.intents[id];
      AskedAreProven(i, candidates, rpc);
      if !AllShown(i, candidates, rpc) { RefusalsAreExplained(i, candidates, rpc); }
      PendingKeys(i, candidates);
      FrozenExactly(s, id, PendingRails(i, candidates));
    }
  }
}
