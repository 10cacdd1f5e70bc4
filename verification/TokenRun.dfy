/** Legal runs of requests in which a valid, consumed token leads to the stale branch, or to an intent it was not issued for. */
module TokenRun {
  import opened Domain
  import opened Relay
  import opened RelayService
  import opened MissionService
  import opened MissionOps
  import Missions
  import opened Coordinator
  import opened System
  import opened Reachability
  import opened Scenario
  import opened BroadcastCapability
  import opened MissionHttp
  import Policy

  ghost predicate WebReachable(w: Web, c: Crypto, openedAt: string -> int) {
    exists trace :: AllLegal(QUIET, trace, c, openedAt) && AreServed(trace, w, c)
  }

  ghost predicate AreServed(trace: seq<Request>, w: Web, c: Crypto) {
    (forall i | 0 <= i < |trace| :: IsWellFormed(trace[i])) && w == ServeAll(QUIET, trace, c)
  }

  lemma {:induction false} ServeOneMore(w: Web, trace: seq<Request>, q: Request, c: Crypto, openedAt: string -> int)
    requires AllLegal(w, trace, c, openedAt) && forall i | 0 <= i < |trace| :: IsWellFormed(trace[i])
    requires MissionHttp.IsLegal(ServeAll(w, trace, c), q, openedAt)
    ensures AllLegal(w, trace + [q], c, openedAt) && forall i | 0 <= i < |trace + [q]| :: IsWellFormed((trace + [q])[i])
    ensures ServeAll(w, trace + [q], c) == Serve(ServeAll(w, trace, c), q, c)
    decreases |trace|
  {
    if |trace| == 0 {
      assert trace + [q] == [q] && [q][1..] == [];
    } else {
      assert (trace + [q])[0] == trace[0] && (trace + [q])[1..] == trace[1..] + [q];
      ServeOneMore(Serve(w, trace[0], c), trace[1..], q, c, openedAt);
    }
  }

  lemma ServeOn(w: Web, q: Request, c: Crypto, openedAt: string -> int)
    requires WebReachable(w, c, openedAt) && MissionHttp.IsLegal(w, q, openedAt)
    ensures WebReachable(Serve(w, q, c), c, openedAt)
  {
    var trace :| AllLegal(QUIET, trace, c, openedAt) && AreServed(trace, w, c);
    ServeOneMore(QUIET, trace, q, c, openedAt);
    assert AreServed(trace + [q], Serve(w, q, c), c);
  }

  const WINDOW := Policy.INTENT_VALIDITY_WINDOW_MS

  /** Alice authorizes at 2, asks again for the same intent as its window closes, and renews it afterwards. */
  function OpenedAt(nonce: string): int {
    if nonce == "n" then 2 else if nonce == "n2" then WINDOW else WINDOW + 3
  }

  // ---------------------------------------------------------------- what each request leaves behind

  ghost predicate Stands(w: Web, c: Crypto) {
    WebReachable(w, c, OpenedAt) && Reachable(w.sys, c)
  }

  lemma AuthorizingServes(v: Web, t: Turn, token: string, c: Crypto)
    requires t.event.Authorize?
    ensures var w, e, x := Serve(v, Authorizing(t, token), c), t.event, v.sys.coord;
            && w.sys == Apply(v.sys, t, c) && w.drawn == v.drawn + {token}
            && w.records == AuthorizeHandled(v.records, x.missions, x.store, e.request, e.nonce, token, t.at, c, e.flushed).0
  {
  }

  lemma AuthorizeServed(v: Web, r: AuthorizeRequest, nonce: string, token: string, at: int, c: Crypto) returns (w: Web)
    requires Stands(v, c) && IsSound(c.protector) && v.sys.clock <= r.now <= at && r.wallets == []
    requires token !in v.drawn && OpenedAt(nonce) == at
    ensures Stands(w, c) && w.sys.clock == at && w.sys.calls == v.sys.calls && w.drawn == v.drawn + {token}
    ensures w.sys.coord == v.sys.coord.(store := Authorized(v.sys.coord.missions, v.sys.coord.store, r, nonce, at, c.sha, c.protector, true).0)
    ensures w.records == AuthorizeHandled(v.records, v.sys.coord.missions, v.sys.coord.store, r, nonce, token, at, c, true).0
  {
    var t := At(v.sys, Authorize(r, nonce, true), at);
    var x := AuthorizeLands(v.sys, r, nonce, at, true, c);
    AuthorizingServes(v, t, token, c);
    ServeOn(v, Authorizing(t, token), c, OpenedAt);
    w := Serve(v, Authorizing(t, token), c);
  }

  lemma BroadcastServed(v: Web, hash: TxHash, token: string, at: int, c: Crypto) returns (w: Web)
    requires Stands(v, c) && IsSound(c.protector) && v.sys.clock <= at
    requires BroadcastBegun(v.sys.coord.store.relay, "m", None).Ok?
    requires Consumed(v.records, token, BindingOf(v.sys.coord.store.relay.intents["m"]), at).1.Ok?
    ensures Stands(w, c) && w.sys.clock == at && w.drawn == v.drawn && IsSpent(w.records, token) && w.sys.coord == v.sys.coord
    ensures w.sys.calls == v.sys.calls + [Attachment("m", v.sys.coord.store.relay.intents["m"], hash, READING)]
  {
    var x := StartLands(v.sys, "m", None, hash, at, c);
    var q := Broadcasting(At(v.sys, StartBroadcast("m", None, hash), at), token);
    BroadcastingServes(v, q, c);
    ServeOn(v, q, c, OpenedAt);
    w := Serve(v, q, c);
  }

  lemma BroadcastingServes(v: Web, q: Request, c: Crypto)
    requires IsWellFormed(q) && IsAdmitted(v, q)
    ensures var w := Serve(v, q, c); w.sys == Apply(v.sys, q.turn, c) && w.drawn == v.drawn && IsSpent(w.records, q.token)
  {
  }

  lemma AnythingServes(v: Web, t: Turn, c: Crypto)
    requires IsWellFormed(Anything(t)) && !t.event.Crash?
    ensures var w := Serve(v, Anything(t), c); w.sys == Apply(v.sys, t, c) && w.drawn == v.drawn && w.records == v.records
  {
  }

  // ---------------------------------------------------------------- up to the recording

  lemma WebOpened(c: Crypto) returns (w: Web)
    requires IsSound(c.protector)
    ensures Stands(w, c) && w.drawn == {} && w.records == map[] && w.sys.clock == 1 && w.sys.calls == []
    ensures w.sys.coord.missions == Begun(c) && w.sys.coord.store == START.coord.store
  {
    assert AllLegal(QUIET, [], c, OpenedAt) && AreServed([], QUIET, c);
    StartIsReachable(c);
    var op := OpenMission("m", OPENING, Some(KnownTarget(BOB, true, "iv")));
    OpeningComputes(c);
    var x := OpLands(START, op, 1, c);
    AnythingServes(QUIET, At(START, Op(op), 1), c);
    ServeOn(QUIET, Anything(At(START, Op(op), 1)), c, OpenedAt);
    w := Serve(QUIET, Anything(At(START, Op(op), 1)), c);
  }

  lemma OpeningComputes(c: Crypto)
    ensures ApplyOp(Missions.NO_MISSIONS, EMPTY, OpenMission("m", OPENING, Some(KnownTarget(BOB, true, "iv"))), 1, c.protector) == Begun(c)
  {
    assert ALICE[2] != BOB[2];
  }

  lemma PassComputes(m: Missions.MissionStore, s: Store, c: Crypto)
    requires IsSound(c.protector) && m == Begun(c) && s.relay == EMPTY
    ensures Authorized(m, s, PassOf(None, 2), "n", 2, c.sha, c.protector, true).0.relay == PassedRelay(None, 2, c)
  {
    assert PassChecked(m, EMPTY, PassOf(None, 2)) == Ok(None);
    PassIsAuthorized(m, s, None, 2, c);
  }

  lemma WebPassed(c: Crypto) returns (w: Web)
    requires IsSound(c.protector)
    ensures Stands(w, c) && w.drawn == {"t1"} && w.sys.clock == 2 && w.sys.calls == []
    ensures w.sys.coord.missions == Begun(c) && w.sys.coord.store.relay == PassedRelay(None, 2, c)
  {
    var v := WebOpened(c);
    PassComputes(Begun(c), v.sys.coord.store, c);
    w := AuthorizeServed(v, PassOf(None, 2), "n", "t1", 2, c);
  }

  /** The intent is still the same one, and its last capability expires with it. */
  lemma PassIsReused(m: Missions.MissionStore, s: Store, records: Records, c: Crypto)
    requires IsSound(c.protector) && m == Begun(c) && s.relay == PassedRelay(None, 2, c)
    ensures Authorized(m, s, PassOf(None, WINDOW), "n2", WINDOW, c.sha, c.protector, true).0 == s
    ensures var after := AuthorizeHandled(records, m, s, PassOf(None, WINDOW), "n2", "t2", WINDOW, c, true).0;
            "t2" in after && after["t2"] == Capability(BindingOf(IntentOf(None, 2, c)), WINDOW + 2, None)
  {
    IntentIsDirect(None, 2, c);
    assert PassChecked(m, s.relay, PassOf(None, WINDOW)) == Ok(None);
  }

  lemma WebPassedAgain(c: Crypto) returns (w: Web)
    requires IsSound(c.protector)
    ensures Stands(w, c) && w.sys.clock == WINDOW && w.sys.calls == [] && w.drawn == {"t1", "t2"}
    ensures w.sys.coord.missions == Begun(c) && w.sys.coord.store.relay == PassedRelay(None, 2, c)
    ensures "t2" in w.records && w.records["t2"] == Capability(BindingOf(IntentOf(None, 2, c)), WINDOW + 2, None)
  {
    var v := WebPassed(c);
    PassIsReused(Begun(c), v.sys.coord.store, v.records, c);
    assert "t1"[1] != "t2"[1];
    w := AuthorizeServed(v, PassOf(None, WINDOW), "n2", "t2", WINDOW, c);
  }

  /** The token is consumed one millisecond before it expires. */
  lemma WebStarted(c: Crypto) returns (w: Web)
    requires IsSound(c.protector)
    ensures Stands(w, c) && w.sys.clock == WINDOW + 1 && IsSpent(w.records, "t2")
    ensures w.drawn == {"t1", "t2"} && w.sys.coord.missions == Begun(c) && w.sys.coord.store.relay == PassedRelay(None, 2, c)
    ensures w.sys.calls == [Attachment("m", IntentOf(None, 2, c), "h", READING)]
  {
    var v := WebPassedAgain(c);
    IntentIsDirect(None, 2, c);
    w := BroadcastServed(v, "h", "t2", WINDOW + 1, c);
  }

  /** Its repository has answered; the relay is yet to be asked. */
  lemma WebLetThrough(c: Crypto) returns (w: Web)
    requires IsSound(c.protector)
    ensures Stands(w, c) && w.sys.clock == WINDOW + 1 && IsSpent(w.records, "t2")
    ensures w.drawn == {"t1", "t2"} && w.sys.coord.missions == Begun(c) && w.sys.coord.store.relay == PassedRelay(None, 2, c)
    ensures w.sys.calls == [Attachment("m", IntentOf(None, 2, c), "h", RECORDING)]
  {
    var v := WebStarted(c);
    var t := At(v.sys, ReadPath(0), WINDOW + 1);
    IsDirectlyLetThrough(v.sys, c);
    var x := ReadLands(v.sys, 0, WINDOW + 1, c);
    AnythingServes(v, t, c);
    ServeOn(v, Anything(t), c, OpenedAt);
    w := Serve(v, Anything(t), c);
  }

  lemma IsDirectlyLetThrough(x: Sys, c: Crypto)
    requires x.coord.missions == Begun(c) && x.calls == [Attachment("m", IntentOf(None, 2, c), "h", READING)]
    ensures IsLetThrough(x, 0)
  {
    IntentIsDirect(None, 2, c);
  }

  // ---------------------------------------------------------------- the two endings

  lemma LateIsStale(s: Store, c: Crypto)
    requires s.relay == PassedRelay(None, 2, c)
    ensures var (t, res) := HashRecorded(s, "m", "h", WINDOW + 3, true); res == Err(STALE_INTENT) && "m" !in t.relay.intents
  {
    IntentIsDirect(None, 2, c);
  }

  /** The call's last turn is legal, and what it leaves is what recording leaves. */
  lemma RecordServes(w: Web, at: int, c: Crypto) returns (q: Request)
    requires Stands(w, c) && IsSound(c.protector) && w.sys.clock <= at && |w.sys.calls| > 0 && w.sys.calls[0].stage.RECORDING?
    ensures q == Anything(At(w.sys, RecordHash(0, true), at)) && MissionHttp.IsLegal(w, q, OpenedAt)
    ensures Serve(w, q, c).sys.coord.store == HashRecorded(w.sys.coord.store, w.sys.calls[0].id, w.sys.calls[0].hash, at, true).0
  {
    q := Anything(At(w.sys, RecordHash(0, true), at));
    var x := RecordLands(w.sys, 0, at, true, c);
    AnythingServes(w, q.turn, c);
  }

  /**
   * The token is consumed one millisecond before it expires, the mission store answers, and two milliseconds later the
   * relay finds the intent stale: the request is refused, the intent is gone and the token is spent.
   */
  lemma AValidTokenMeetsTheStaleBranch(c: Crypto) returns (w: Web, q: Request)
    requires IsSound(c.protector)
    ensures WebReachable(w, c, OpenedAt) && MissionHttp.IsLegal(w, q, OpenedAt) && IsSpent(w.records, "t2")
    ensures w.sys.clock == WINDOW + 1 && q == Anything(At(w.sys, RecordHash(0, true), WINDOW + 3))
    ensures HashRecorded(w.sys.coord.store, "m", "h", WINDOW + 3, true).1 == Err(STALE_INTENT)
    ensures "m" !in Serve(w, q, c).sys.coord.store.relay.intents
  {
    w := WebLetThrough(c);
    LateIsStale(w.sys.coord.store, c);
    q := RecordServes(w, WINDOW + 3, c);
  }

  function Renewal(c: Crypto): PassIntent {
    RenewalOf("n3", WINDOW + 3, c)
  }

  lemma ThirdNames()
    ensures OpenedAt("n3") == WINDOW + 3 && "t3" !in {"t1", "t2"}
  {
    assert "n2"[1] != "n3"[1] && "t1"[1] != "t3"[1] && "t2"[1] != "t3"[1];
  }

  lemma WebRenewed(c: Crypto) returns (w: Web)
    requires IsSound(c.protector)
    ensures Stands(w, c) && w.sys.clock == WINDOW + 3 && w.sys.coord.store.relay == RenewedRelay("n3", WINDOW + 3, c)
    ensures w.sys.calls == [Attachment("m", IntentOf(None, 2, c), "h", RECORDING)]
  {
    var v := WebLetThrough(c);
    IntentIsDirect(None, 2, c);
    RenewalComputes(Begun(c), v.sys.coord.store, IntentOf(None, 2, c), "n3", WINDOW + 3, c);
    ThirdNames();
    w := AuthorizeServed(v, PassOf(None, WINDOW + 3), "n3", "t3", WINDOW + 3, c);
  }

  lemma RenewalTakesTheHash(s: Store, c: Crypto)
    requires s.relay == RenewedRelay("n3", WINDOW + 3, c)
    ensures var (t, res) := HashRecorded(s, "m", "h", WINDOW + 4, true);
            res == Ok(HopFor(Renewal(c), Some("h"), HopStatus.PENDING)) && HasRecordedBroadcast(t.relay, "m")
  {
    assert CurrentSequence([], "m") == 0;
    var h := HopFor(Renewal(c), Some("h"), HopStatus.PENDING);
    assert PutHop([], h) == [h];
    assert GetHop([h], "m", 1) == Some(h);
  }

  /**
   * The token was issued for the intent opened at 2. Between its consumption and the recording Alice renews her intent, and
   * the hash goes to the new one.
   */
  lemma AValidTokenAttachesElsewhere(c: Crypto) returns (w: Web, q: Request)
    requires IsSound(c.protector)
    ensures WebReachable(w, c, OpenedAt) && MissionHttp.IsLegal(w, q, OpenedAt) && q == Anything(At(w.sys, RecordHash(0, true), WINDOW + 4))
    ensures w.sys.calls == [Attachment("m", IntentOf(None, 2, c), "h", RECORDING)] && IntentOf(None, 2, c).nonce == "n"
    ensures var res := HashRecorded(w.sys.coord.store, "m", "h", WINDOW + 4, true).1; res.Ok? && res.value.nonce == "n3"
    ensures HasRecordedBroadcast(Serve(w, q, c).sys.coord.store.relay, "m")
  {
    w := WebRenewed(c);
    RenewalTakesTheHash(w.sys.coord.store, c);
    q := RecordServes(w, WINDOW + 4, c);
  }
}
