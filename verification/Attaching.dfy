/** A broadcast call from its first check to its last write, with any steps of the system between its awaits. */
module Attaching {
  import opened Domain
  import opened Relay
  import opened RelayService
  import opened RelaySafety
  import opened MissionService
  import MissionSafety
  import opened Coordinator
  import opened System
  import opened Delivery
  import opened IntentSpacing
  import Policy

  /** A call keeps its place and what it captured until the process stops. */
  lemma StepKeepsCall(x: Sys, s: Turn, c: Crypto, k: nat)
    requires k < |x.calls| && !s.event.Crash?
    ensures var y := Apply(x, s, c); k < |y.calls| && y.calls[k] == x.calls[k].(stage := y.calls[k].stage)
  {
    ApplyParts(x, s, c);
  }

  lemma {:induction false} RunKeepsCall(x: Sys, trace: seq<Turn>, c: Crypto, k: nat)
    requires k < |x.calls| && NoCrash(trace)
    ensures var y := Run(x, trace, c); k < |y.calls| && y.calls[k] == x.calls[k].(stage := y.calls[k].stage)
    decreases |trace|
  {
    if |trace| > 0 {
      StepKeepsCall(x, trace[0], c, k);
      RunKeepsCall(Apply(x, trace[0], c), trace[1..], c, k);
    }
  }

  /** What recording answers in a state whose open intent of b, if any, is in line. */
  lemma RecordingAnswers(s: Store, b: string, hash: TxHash, at: int)
    requires RelaySafety.Inv(s.relay)
    ensures HashRecorded(s, b, hash, at, true).1
         == if b !in s.relay.intents then Err(NO_ACTIVE_INTENT)
            else if IsStale(s.relay.intents[b], at) then Err(STALE_INTENT)
            else if !HashIsFree(s.relay.hops, s.relay.intents[b], hash) then Err(DUPLICATE_TX_HASH)
            else Ok(HopFor(s.relay.intents[b], Some(hash), PENDING))
  {
    if b in s.relay.intents { assert IsNext(s.relay, b, s.relay.intents[b]); }
  }

  /** Intent i of b still stands unless its delivery is FINAL, and the hash goes to it if it goes anywhere. */
  predicate AttachesToItsOwn(s: Store, b: string, i: PassIntent, hash: TxHash, at: int) {
    var r := s.relay;
    && (!IsFinal(r.hops, b, 1) ==> b in r.intents && Continues(i, r.intents[b]))
    && HashRecorded(s, b, hash, at, true).1
       == if IsFinal(r.hops, b, 1) then Err(NO_ACTIVE_INTENT)
          else if !HashIsFree(r.hops, r.intents[b], hash) then Err(DUPLICATE_TX_HASH)
          else Ok(HopFor(r.intents[b], Some(hash), PENDING))
  }

  /** The hash goes somewhere exactly when b was authorized anew, and then to that later intent. */
  predicate AttachesElsewhere(s: Store, b: string, i: PassIntent, hash: TxHash, at: int, y: Sys, trace: seq<Turn>, c: Crypto) {
    var r, res := s.relay, HashRecorded(s, b, hash, at, true).1;
    && (res.Ok? <==> b in r.intents && Renewed(y, trace, c, b, r.intents[b]) && !IsStale(r.intents[b], at) && HashIsFree(r.hops, r.intents[b], hash))
    && (res.Ok? ==> res.value == HopFor(r.intents[b], Some(hash), PENDING) && res.value.createdAt > i.createdAt)
  }

  lemma InTimeAttachesItsOwn(z: Sys, b: string, i: PassIntent, hash: TxHash, at: int, p: Protector)
    requires SysInv(z, p) && Held(z.coord.store.relay, b, i) && at - i.createdAt <= Policy.INTENT_VALIDITY_WINDOW_MS
    ensures AttachesToItsOwn(z.coord.store, b, i, hash, at)
  {
    LiveIsValid(z, p);
    RecordingAnswers(z.coord.store, b, hash, at);
    if IsFinal(z.coord.store.relay.hops, b, 1) { FinalHasNoIntent(z, b, p); }
  }

  lemma FinalHasNoIntent(z: Sys, b: string, p: Protector)
    requires SysInv(z, p) && IsFinal(z.coord.store.relay.hops, b, 1)
    ensures b !in z.coord.store.relay.intents
  {
    LiveIsGood(z, p);
    var r := z.coord.store.relay;
    assert HopLinked(GetHop(r.hops, b, 1).value, z.coord.missions, p);
    SlotHolds(r.hops, b, 1);
    FinalClosesTheMission(r, z.coord.missions, b, p);
  }

  lemma LateAttachesElsewhere(s: Store, b: string, i: PassIntent, hash: TxHash, at: int, y: Sys, trace: seq<Turn>, c: Crypto)
    requires RelaySafety.Inv(s.relay) && at - i.createdAt > Policy.INTENT_VALIDITY_WINDOW_MS
    requires b in s.relay.intents ==> Continues(i, s.relay.intents[b]) || Renewed(y, trace, c, b, s.relay.intents[b])
    ensures AttachesElsewhere(s, b, i, hash, at, y, trace, c)
  {
    RecordingAnswers(s, b, hash, at);
  }

  /**
   * A call started for intent i of its mission. Whatever happened since, recording up to i.createdAt plus the window
   * attaches the hash to i, or fails because the delivery is FINAL or the hash is taken. Later than that it attaches, and
   * then to another intent, exactly when the mission was authorized anew in between, that intent is open and not stale, and
   * the hash is free.
   */
  lemma RecordingAttachesExactlyWhen(x: Sys, begin: Turn, trace: seq<Turn>, c: Crypto, at: int)
    requires SysInv(x, c.protector) && IsSound(c.protector) && System.Legal(x, begin) && begin.event.StartBroadcast?
    requires BroadcastBegun(x.coord.store.relay, begin.event.id, begin.event.invitationId).Ok?
    requires LegalRun(Apply(x, begin, c), trace, c) && NoCrash(trace)
    ensures var y, e, i := Apply(x, begin, c), begin.event, x.coord.store.relay.intents[begin.event.id];
            var z := Run(y, trace, c);
            && |x.calls| < |z.calls| && z.calls[|x.calls|] == Attachment(e.id, i, e.hash, z.calls[|x.calls|].stage)
            && (z.clock <= at <= i.createdAt + Policy.INTENT_VALIDITY_WINDOW_MS ==> AttachesToItsOwn(z.coord.store, e.id, i, e.hash, at))
            && (at > i.createdAt + Policy.INTENT_VALIDITY_WINDOW_MS ==> AttachesElsewhere(z.coord.store, e.id, i, e.hash, at, y, trace, c))
  {
    var y, e := Apply(x, begin, c), begin.event;
    StartingKeepsTheStore(x, begin, c);
    ApplyKeepsSysInv(x, begin, c);
    RunKeepsCall(y, trace, c, |x.calls|);
    LongAfter(y, trace, c, e.id, e.hash, at);
  }

  lemma StartingKeepsTheStore(x: Sys, begin: Turn, c: Crypto)
    requires begin.event.StartBroadcast? && BroadcastBegun(x.coord.store.relay, begin.event.id, begin.event.invitationId).Ok?
    ensures var y, e := Apply(x, begin, c), begin.event;
            y.coord == x.coord && y.calls == x.calls + [Attachment(e.id, x.coord.store.relay.intents[e.id], e.hash, READING)]
  {
    ApplyParts(x, begin, c);
  }

  lemma LongAfter(y: Sys, trace: seq<Turn>, c: Crypto, b: string, hash: TxHash, at: int)
    requires SysInv(y, c.protector) && IsSound(c.protector) && LegalRun(y, trace, c) && NoCrash(trace) && b in y.coord.store.relay.intents
    ensures var i, z := y.coord.store.relay.intents[b], Run(y, trace, c);
            && (z.clock <= at <= i.createdAt + Policy.INTENT_VALIDITY_WINDOW_MS ==> AttachesToItsOwn(z.coord.store, b, i, hash, at))
            && (at > i.createdAt + Policy.INTENT_VALIDITY_WINDOW_MS ==> AttachesElsewhere(z.coord.store, b, i, hash, at, y, trace, c))
  {
    var i, z := y.coord.store.relay.intents[b], Run(y, trace, c);
    RunKeepsSysInv(y, trace, c);
    if at > i.createdAt + Policy.INTENT_VALIDITY_WINDOW_MS {
      LongAfterTheWindow(y, trace, c, b, hash, at);
    } else if z.clock <= at {
      NewestIsHeld(y, b, c.protector);
      RunKeepsHeld(y, trace, c, |y.coord.store.journal| - 1, b, i);
      InTimeAttachesItsOwn(z, b, i, hash, at, c.protector);
    }
  }

  lemma LongAfterTheWindow(y: Sys, trace: seq<Turn>, c: Crypto, b: string, hash: TxHash, at: int)
    requires SysInv(y, c.protector) && IsSound(c.protector) && LegalRun(y, trace, c) && NoCrash(trace) && b in y.coord.store.relay.intents
    requires SysInv(Run(y, trace, c), c.protector) && at > y.coord.store.relay.intents[b].createdAt + Policy.INTENT_VALIDITY_WINDOW_MS
    ensures AttachesElsewhere(Run(y, trace, c).coord.store, b, y.coord.store.relay.intents[b], hash, at, y, trace, c)
  {
    LiveIsValid(Run(y, trace, c), c.protector);
    RunKeepsOrRenews(y, trace, c, b);
    LateAttachesElsewhere(Run(y, trace, c).coord.store, b, y.coord.store.relay.intents[b], hash, at, y, trace, c);
  }
}
