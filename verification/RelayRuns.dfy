/** Relay operations as chains of legal mutations, and what holds over whole runs of the relay. */
module RelayRuns {
  import opened Domain
  import opened PaymentRails
  import opened Relay
  import opened RelayService
  import opened RelaySafety
  import HopCommitment

  // ---------------------------------------------------------------- chains of mutations

  /** Whether a chain may open an intent, give one up without a FINAL hop, or add frozen rails. */
  datatype May = May(opens: bool, closes: bool, freezes: bool)

  predicate Permits(may: May, m: Mutation) {
    (m.Open? ==> may.opens) && (m.Close? ==> may.closes) && (m.Freeze? ==> may.freezes)
  }

  /** One legal mutation of baton b. */
  ghost predicate Step(r: Relay, q: Relay, b: string, may: May) {
    exists m :: Legal(r, m) && BatonOf(m) == b && Permits(may, m) && q == Mutate(r, m)
  }

  ghost predicate Path(r: Relay, trail: seq<Relay>, last: Relay, b: string, may: May)
    decreases |trail|
  {
    if |trail| == 0 then r == last else Step(r, trail[0], b, may) && Path(trail[0], trail[1..], last, b, may)
  }

  /** t is s after legal mutations of baton b, each journalled, and satisfies the invariant. */
  ghost predicate Moves(s: Store, t: Store, b: string, may: May) {
    && Inv(t.relay)
    && |s.journal| <= |t.journal| && t.journal[..|s.journal|] == s.journal
    && Path(s.relay, t.journal[|s.journal|..], t.relay, b, may)
  }

  lemma {:induction false} PathGrows(r: Relay, trail: seq<Relay>, mid: Relay, last: Relay, b: string, may: May)
    requires Path(r, trail, mid, b, may) && Step(mid, last, b, may)
    ensures Path(r, trail + [last], last, b, may)
    decreases |trail|
  {
    var longer := trail + [last];
    if |trail| == 0 {
      assert longer[0] == last && longer[1..] == [];
    } else {
      assert longer[0] == trail[0] && longer[1..] == trail[1..] + [last];
      PathGrows(trail[0], trail[1..], mid, last, b, may);
    }
  }

  lemma MoveOn(s: Store, t: Store, m: Mutation, b: string, may: May)
    requires Moves(s, t, b, may) && Legal(t.relay, m) && BatonOf(m) == b && Permits(may, m)
    ensures Moves(s, Commit(t, Mutate(t.relay, m)), b, may)
  {
    var q := Mutate(t.relay, m);
    MutationKeepsInv(t.relay, m);
    PathGrows(s.relay, t.journal[|s.journal|..], t.relay, q, b, may);
    assert (t.journal + [q])[|s.journal|..] == t.journal[|s.journal|..] + [q];
  }

  /** A property every mutation keeps holds at the end of a path and at every snapshot on it. */
  lemma {:induction false} PathKeeps(r: Relay, trail: seq<Relay>, last: Relay, b: string, may: May, P: Relay -> bool)
    requires Path(r, trail, last, b, may) && P(r)
    requires forall x, y | P(x) && Step(x, y, b, may) :: P(y)
    ensures P(last) && forall i | 0 <= i < |trail| :: P(trail[i])
    decreases |trail|
  {
    if |trail| > 0 { PathKeeps(trail[0], trail[1..], last, b, may, P); }
  }

  lemma MovesKeep(s: Store, t: Store, b: string, may: May, P: Relay -> bool)
    requires Moves(s, t, b, may) && P(s.relay)
    requires forall x, y | P(x) && Step(x, y, b, may) :: P(y)
    ensures P(t.relay) && forall i | |s.journal| <= i < |t.journal| :: P(t.journal[i])
  {
    var trail := t.journal[|s.journal|..];
    PathKeeps(s.relay, trail, t.relay, b, may, P);
    forall i | |s.journal| <= i < |t.journal| ensures P(t.journal[i]) {
      assert t.journal[i] == trail[i - |s.journal|];
    }
  }

  lemma JournalSplits(journal: seq<Relay>, trail: seq<Relay>)
    requires |trail| > 0
    ensures (journal + [trail[0]]) + trail[1..] == journal + trail
  {
  }

  /** The same for properties of the store and its journal. */
  lemma {:induction false} PathKeepsStore(s: Store, trail: seq<Relay>, last: Relay, b: string, may: May, P: Store -> bool)
    requires P(s) && Path(s.relay, trail, last, b, may)
    requires forall x, q | P(x) && Step(x.relay, q, b, may) :: P(Commit(x, q))
    ensures P(Store(last, s.journal + trail))
    decreases |trail|
  {
    if |trail| == 0 {
      assert Store(last, s.journal + trail) == s;
    } else {
      var t := Commit(s, trail[0]);
      assert P(t);
      PathKeepsStore(t, trail[1..], last, b, may, P);
      JournalSplits(s.journal, trail);
    }
  }

  lemma MovesKeepStore(s: Store, t: Store, b: string, may: May, P: Store -> bool)
    requires Moves(s, t, b, may) && P(s)
    requires forall x, q | P(x) && Step(x.relay, q, b, may) :: P(Commit(x, q))
    ensures P(t)
  {
    var trail := t.journal[|s.journal|..];
    assert Store(t.relay, s.journal + trail) == t;
    PathKeepsStore(s, trail, t.relay, b, may, P);
  }

  // ---------------------------------------------------------------- each operation is such a chain

  lemma {:induction false} LastMatchIsAMatch(history: seq<Tx>, matches: Tx -> bool)
    ensures LastMatch(history, matches).Some? ==>
              LastMatch(history, matches).value in history && matches(LastMatch(history, matches).value)
    ensures LastMatch(history, matches).None? ==> forall i | 0 <= i < |history| :: !matches(history[i])
    decreases |history|
  {
    if |history| > 0 {
      var shorter := history[..|history| - 1];
      LastMatchIsAMatch(shorter, matches);
      forall i | 0 <= i < |history| && LastMatch(history, matches).None? ensures !matches(history[i]) {
        if i < |shorter| { assert shorter[i] == history[i]; }
      }
    }
  }

  lemma CreatedMoves(s: Store, q: PassRequest, nonce: string, now: int, sha: HopCommitment.Digest)
    requires Inv(s.relay)
    ensures Moves(s, Created(s, q, nonce, now, sha).0, q.batonId, May(true, false, false))
  {
    if Created(s, q, nonce, now, sha).1.Ok? {
      MoveOn(s, s, Open(NewIntent(s.relay, q, nonce, now, sha)), q.batonId, May(true, false, false));
    }
  }

  lemma CancelMovesOn(s: Store, t: Store, b: string, may: May)
    requires Moves(s, t, b, may) && may.closes
    ensures Moves(s, Cancelled(t, b), b, may)
  {
    if b in t.relay.intents { MoveOn(s, t, Close(b), b, may); }
  }

  lemma UpdateMovesOn(s: Store, t: Store, b: string, patch: HopPatch, may: May)
    requires Moves(s, t, b, may) && b in t.relay.intents && IsVerdict(patch)
    requires patch.status.FINAL? ==>
               var hop := GetHop(t.relay.hops, b, t.relay.intents[b].sequence); hop.Some? && hop.value.txHash.Some?
    ensures Moves(s, Updated(t, b, t.relay.intents[b].sequence, patch).0, b, may)
  {
    if GetHop(t.relay.hops, b, t.relay.intents[b].sequence).Some? {
      assert IsNext(t.relay, b, t.relay.intents[b]);
      MoveOn(s, t, Patch(b, patch), b, may);
    }
  }

  lemma RecordMovesOn(s: Store, t: Store, b: string, h: Hop, may: May)
    requires Moves(s, t, b, may) && b in t.relay.intents && h.txHash != Some("")
    requires h == HopFor(t.relay.intents[b], h.txHash, h.status) && h.status in {PENDING, INVALID}
    requires h.txHash.Some? ==>
               var e := FindByHash(t.relay.hops, h.txHash.value); e.None? || InSlot(e.value, h.batonId, h.sequence)
    ensures Moves(s, Recorded(t, h).0, b, may)
    ensures Recorded(t, h).1 == Ok(h) && Recorded(t, h).0.relay.intents == t.relay.intents
    ensures GetHop(Recorded(t, h).0.relay.hops, b, t.relay.intents[b].sequence) == Some(h)
  {
    assert IsNext(t.relay, b, t.relay.intents[b]);
    forall i | h.txHash.Some? && 0 <= i < |t.relay.hops| && t.relay.hops[i].txHash == h.txHash
      ensures InSlot(t.relay.hops[i], h.batonId, h.sequence)
    {
      var e := FindByHash(t.relay.hops, h.txHash.value).value;
      var j :| 0 <= j < |t.relay.hops| && t.relay.hops[j] == e;
      assert GetHop(t.relay.hops, e.batonId, e.sequence) == Some(e);
      SlotOwnsItsHash(t.relay, e);
    }
    MoveOn(s, t, Put(h), b, may);
    PutThenGet(t.relay.hops, h, b, h.sequence);
  }

  lemma BroadcastMovesOn(s: Store, t: Store, b: string, hash: string, may: May)
    requires Moves(s, t, b, may) && b in t.relay.intents && hash != ""
    ensures var res := ObservedBroadcast(t, t.relay.intents[b], hash);
            && Moves(s, res.0, b, may)
            && (res.1.Ok? ==>
                  && res.0.relay.intents == t.relay.intents && res.1.value.txHash.Some?
                  && GetHop(res.0.relay.hops, b, t.relay.intents[b].sequence) == Some(res.1.value))
  {
    assert IsNext(t.relay, b, t.relay.intents[b]);
    if ObservedBroadcast(t, t.relay.intents[b], hash).1.Ok? {
      RecordMovesOn(s, t, b, HopFor(t.relay.intents[b], Some(hash), PENDING), may);
    }
  }

  /** A broadcast, a freeze or a reconcile gives an intent up without FINAL only once it is stale. */
  predicate IsStaleAt(r: Relay, b: string, now: int) {
    b in r.intents && IsStale(r.intents[b], now)
  }

  lemma RecordedBroadcastMoves(s: Store, b: string, hash: string, now: int)
    requires Inv(s.relay) && hash != ""
    ensures Moves(s, RecordedBroadcast(s, b, hash, now).0, b, May(false, IsStaleAt(s.relay, b, now), false))
  {
    var may := May(false, IsStaleAt(s.relay, b, now), false);
    if b in s.relay.intents {
      if may.closes { CancelMovesOn(s, s, b, may); }
      BroadcastMovesOn(s, s, b, hash, may);
    }
  }

  lemma CancelledPassMoves(s: Store, b: string)
    requires Inv(s.relay)
    ensures Moves(s, CancelledPass(s, b).0, b, May(false, true, false))
  {
    CancelMovesOn(s, s, b, May(false, true, false));
  }

  lemma {:induction false} AddRailsAddsOnlyRails(sources: seq<string>, rails: seq<string>)
    ensures AddsOnlyRails(sources, AddRails(sources, rails))
    decreases |rails|
  {
    if |rails| > 0 {
      MarkerRoundTrip(rails[0]);
      AddRailsAddsOnlyRails(AddRail(sources, rails[0]), rails[1..]);
    }
  }

  lemma FrozenVerifiedMoves(s: Store, b: string, candidates: seq<string>, now: int, rpc: Rpc)
    requires Inv(s.relay)
    ensures Moves(s, FrozenVerified(s, b, candidates, now, rpc).0, b, May(false, IsStaleAt(s.relay, b, now), true))
  {
    var may := May(false, IsStaleAt(s.relay, b, now), true);
    if b in s.relay.intents {
      var intent := s.relay.intents[b];
      if may.closes { CancelMovesOn(s, s, b, may); }
      var rails := PendingRails(intent, candidates);
      AddRailsAddsOnlyRails(intent.authorizedPaymentWallets, rails);
      if Frozen(s, b, rails).0 != s {
        MoveOn(s, s, Freeze(b, AddRails(intent.authorizedPaymentWallets, rails)), b, may);
      }
    }
  }

  lemma AppliedMovesOn(s: Store, t: Store, b: string, hop: Hop, tx: Tx, now: int, rpc: Rpc, may: May)
    requires Moves(s, t, b, may) && b in t.relay.intents
    requires var g := GetHop(t.relay.hops, b, t.relay.intents[b].sequence); g.Some? && g.value.txHash.Some?
    ensures Moves(s, AppliedTransaction(t, t.relay.intents[b], hop, tx, now, rpc).0, b, may)
  {
    assert IsNext(t.relay, b, t.relay.intents[b]);
    match ValidateObserved(t.relay.intents[b], tx, rpc)
    case Err(_) => UpdateMovesOn(s, t, b, StatusOnly(INVALID), may);
    case Ok(_) =>
      if tx.blockNumber.Some? && rpc.head.Reply? {
        UpdateMovesOn(s, t, b, Verdict(tx, rpc.head.value, now), may);
      }
  }

  lemma ExpiredMoves(s: Store, b: string)
    requires Inv(s.relay) && b in s.relay.intents
    ensures Moves(s, Expired(s, s.relay.intents[b]).0, b, May(false, true, false))
  {
    var may := May(false, true, false);
    var intent := s.relay.intents[b];
    assert IsNext(s.relay, b, intent);
    if GetHop(s.relay.hops, b, intent.sequence).Some? {
      UpdateMovesOn(s, s, b, StatusOnly(INVALID), may);
      CancelMovesOn(s, Updated(s, b, intent.sequence, StatusOnly(INVALID)).0, b, may);
    } else {
      RecordMovesOn(s, s, b, HopFor(intent, None, INVALID), may);
      CancelMovesOn(s, Recorded(s, HopFor(intent, None, INVALID)).0, b, may);
    }
  }

  lemma ReconciledMoves(s: Store, b: string, now: int, first: Rpc, second: Rpc)
    requires Inv(s.relay)
    ensures Moves(s, Reconciled(s, b, now, first, second).0, b, May(false, IsStaleAt(s.relay, b, now), false))
  {
    var may := May(false, IsStaleAt(s.relay, b, now), false);
    if b in s.relay.intents {
      var intent := s.relay.intents[b];
      if may.closes { ExpiredMoves(s, b); }
      var hop := GetHop(s.relay.hops, b, intent.sequence);
      if hop.None? || hop.value.txHash.None? {
        var found := Discovered(intent, first);
        if found.Ok? && found.value.Some? {
          LastMatchIsAMatch(first.history.value(intent.recipient).value, Matcher(intent, first));
          BroadcastMovesOn(s, s, b, found.value.value.hash, may);
          var (t, h) := ObservedBroadcast(s, intent, found.value.value.hash);
          if h.Ok? {
            AppliedMovesOn(s, t, b, h.value, found.value.value, now, second, may);
          }
        }
      } else {
        var looked := first.transaction(hop.value.txHash.value);
        if looked.Reply? && looked.value.Some? {
          AppliedMovesOn(s, s, b, hop.value, looked.value.value, now, second, may);
        }
      }
    }
  }

  // ---------------------------------------------------------------- what a chain keeps

  /** Intent, holder and hop slots of one baton agree. */
  ghost predicate SameAt(r: Relay, q: Relay, c: string) {
    && (c in q.intents <==> c in r.intents) && (c in q.intents ==> q.intents[c] == r.intents[c])
    && (c in q.holders <==> c in r.holders) && (c in q.holders ==> q.holders[c] == r.holders[c])
    && forall k :: GetHop(q.hops, c, k) == GetHop(r.hops, c, k)
  }

  /** Nothing about another baton changes. */
  ghost predicate SameElsewhere(r: Relay, q: Relay, b: string) {
    forall c | c != b :: SameAt(r, q, c)
  }

  ghost predicate KeepsFinals(r: Relay, q: Relay) {
    forall c, k | IsFinal(r.hops, c, k) :: GetHop(q.hops, c, k) == GetHop(r.hops, c, k)
  }

  /** The invariant holds, FINAL hops of r are untouched, other batons are untouched. */
  ghost predicate Extends(r: Relay, q: Relay, b: string) {
    Inv(q) && KeepsFinals(r, q) && SameElsewhere(r, q, b)
  }

  lemma MutationStaysHome(r: Relay, m: Mutation, c: string)
    requires Inv(r) && Legal(r, m) && c != BatonOf(m)
    ensures SameAt(r, Mutate(r, m), c)
  {
    forall k ensures GetHop(Mutate(r, m).hops, c, k) == GetHop(r.hops, c, k) {
      match m
      case Put(h) => PutThenGet(r.hops, h, c, k);
      case Patch(d, patch) =>
        assert IsNext(r, d, r.intents[d]);
        PutThenGet(r.hops, Patched(GetHop(r.hops, d, r.intents[d].sequence).value, patch), c, k);
      case _ =>
    }
  }

  lemma StepExtends(r: Relay, x: Relay, y: Relay, b: string, may: May)
    requires Extends(r, x, b) && Step(x, y, b, may)
    ensures Extends(r, y, b)
  {
    var m :| Legal(x, m) && BatonOf(m) == b && Permits(may, m) && y == Mutate(x, m);
    MutationKeepsInv(x, m);
    forall c, k | IsFinal(r.hops, c, k) ensures GetHop(y.hops, c, k) == GetHop(r.hops, c, k) {
      MutationKeepsFinal(x, m, c, k);
    }
    forall c | c != b ensures SameAt(r, y, c) {
      MutationStaysHome(x, m, c);
      assert SameAt(r, x, c);
    }
  }

  /** Over one operation: FINAL hops and other batons are untouched, at the end and in every journalled snapshot. */
  lemma MovesExtend(s: Store, t: Store, b: string, may: May)
    requires Inv(s.relay) && Moves(s, t, b, may)
    ensures Extends(s.relay, t.relay, b)
    ensures forall i | |s.journal| <= i < |t.journal| :: Extends(s.relay, t.journal[i], b)
  {
    forall x, y | Extends(s.relay, x, b) && Step(x, y, b, may) ensures Extends(s.relay, y, b) {
      StepExtends(s.relay, x, y, b, may);
    }
    MovesKeep(s, t, b, may, x => Extends(s.relay, x, b));
  }
}
