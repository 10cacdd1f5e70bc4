/** The authorize, freeze and broadcast requests: capabilities in front of the coordinator and the relay. */
module MissionHttp {
  import opened Domain
  import opened Relay
  import opened RelayService
  import opened RelaySafety
  import opened RelayRuns
  import opened MissionService
  import MissionSafety
  import Missions
  import opened Coordinator
  import opened System
  import opened Delivery
  import opened Provenance
  import Signatures
  import opened BroadcastCapability
  import opened Attaching
  import IntentSpacing
  import Policy

  /** The system, the steps it has taken, and the process-local capability store with every token it ever drew. */
  datatype Web = Web(sys: Sys, log: seq<Turn>, records: Records, drawn: set<string>)

  /**
   * Freezing reads the clock for the capability and again in the relay. Broadcasting is the first stretch of its call:
   * the capability is consumed and the path checked; the rest of the call are later turns.
   */
  datatype Request =
    | Authorizing(turn: Turn, token: string)
    | Freezing(turn: Turn, token: string, checkedAt: int)
    | Broadcasting(turn: Turn, token: string)
    | Anything(turn: Turn)

  function BindingOf(i: PassIntent): PassBinding {
    PassBinding(i.batonId, i.invitationId, i.sequence, i.nonce, i.currentHolder)
  }

  function TtlFor(i: PassIntent, now: int): int {
    var left := i.createdAt + Policy.INTENT_VALIDITY_WINDOW_MS - now;
    if BROADCAST_CAPABILITY_TTL_MS < left then BROADCAST_CAPABILITY_TTL_MS else left
  }

  function Take(w: Web, t: Turn, c: Crypto): Web {
    w.(sys := Apply(w.sys, t, c), log := w.log + [t])
  }

  // ---------------------------------------------------------------- the three handlers

  /** A capability is issued for the authorized intent, unless that intent's window is over already. */
  function AuthorizeHandled(records: Records, m: Missions.MissionStore, s: Store, q: AuthorizeRequest, nonce: string, token: string,
                            now: int, c: Crypto, flushed: bool)
    : (Records, Store, Result<PassIntent>)
  {
    var (t, res) := Authorized(m, s, q, nonce, now, c.sha, c.protector, flushed);
    if res.Err? then (records, t, res)
    else
      var intent := res.value;
      var binding := PassBinding(q.missionId, intent.invitationId, intent.sequence, intent.nonce, q.auth.wallet);
      if TtlFor(intent, q.now) <= 0 then (records, t, Err(PASS_INTENT_EXPIRED))
      else (Granted(records, token, binding, q.now, TtlFor(intent, q.now)).0, t, res)
  }

  /** Freezing only asserts the capability. */
  function FreezeHandled(records: Records, s: Store, id: string, rails: seq<string>, token: string, checkedAt: int, frozenAt: int, rpc: Rpc,
                         flushed: bool)
    : (Records, Store, Result<PassIntent>)
  {
    if id !in s.relay.intents then (records, s, Err(NO_ACTIVE_PASS))
    else
      var (kept, checked) := Checked(records, token, BindingOf(s.relay.intents[id]), checkedAt);
      if checked.Err? then (kept, s, Err(checked.reason))
      else
        var (t, res) := FrozenDurably(s, id, rails, frozenAt, rpc, flushed);
        (kept, t, res)
  }

  /** Broadcasting consumes it before the repository is asked. */
  function BroadcastStarted(records: Records, r: Relay, id: string, invitationId: Option<string>, token: string, now: int)
    : (Records, Result<PassIntent>)
  {
    if id !in r.intents then (records, Err(NO_ACTIVE_PASS))
    else
      var (kept, consumed) := Consumed(records, token, BindingOf(r.intents[id]), now);
      (kept, if consumed.Err? then Err(consumed.reason) else BroadcastBegun(r, id, invitationId))
  }

  /** The whole request, when nothing runs between its stretches. */
  function BroadcastHandled(records: Records, m: Missions.MissionStore, s: Store, id: string, invitationId: Option<string>, hash: string,
                            token: string, checkedAt: int, recordedAt: int, flushed: bool)
    : (Records, Store, Result<Hop>)
  {
    var (kept, begun) := BroadcastStarted(records, s.relay, id, invitationId, token, checkedAt);
    if begun.Err? then (kept, s, Err(begun.reason))
    else
      var path := PathChecked(m, begun.value, id, Missions.LatestClaim(m.claims, id));
      if path.Err? then (kept, s, Err(path.reason))
      else
        var (t, res) := HashRecorded(s, id, hash, recordedAt, flushed);
        (kept, t, res)
  }

  class MissionHttpServer {
    const coordinator: ReachMissionCoordinator
    const relay: CanonicalRelayService
    const capabilities: MemoryBroadcastCapabilityStore

    constructor (coordinator: ReachMissionCoordinator, relay: CanonicalRelayService, capabilities: MemoryBroadcastCapabilityStore)
      ensures this.coordinator == coordinator && this.relay == relay && this.capabilities == capabilities
    {
      this.coordinator, this.relay, this.capabilities := coordinator, relay, capabilities;
    }

    method AuthorizePass(q: AuthorizeRequest, nonce: string, token: string, now: int, c: Crypto, flushed: bool) returns (res: Result<PassIntent>)
      requires coordinator.relay == relay && c.protector == coordinator.protector
      modifies relay.store, capabilities
      ensures (capabilities.records, relay.store.State(), res)
           == AuthorizeHandled(old(capabilities.records), coordinator.repository.State(), old(relay.store.State()), q, nonce, token, now, c, flushed)
    {
      res := coordinator.AuthorizePass(q, nonce, now, c.sha, flushed);
      if res.Err? {
        return;
      }
      var intent := res.value;
      var ttl := TtlFor(intent, q.now);
      if ttl <= 0 {
        return Err(PASS_INTENT_EXPIRED);
      }
      var binding := PassBinding(q.missionId, intent.invitationId, intent.sequence, intent.nonce, q.auth.wallet);
      var _ := capabilities.Issue(binding, q.now, ttl, token);
    }

    method FreezePaymentRails(id: string, rails: seq<string>, token: string, checkedAt: int, frozenAt: int, rpc: Rpc, flushed: bool)
      returns (res: Result<PassIntent>)
      modifies relay.store, capabilities
      ensures (capabilities.records, relay.store.State(), res)
           == FreezeHandled(old(capabilities.records), old(relay.store.State()), id, rails, token, checkedAt, frozenAt, rpc, flushed)
    {
      if id !in relay.store.intents {
        return Err(NO_ACTIVE_PASS);
      }
      var checked := capabilities.Assert(token, BindingOf(relay.store.intents[id]), checkedAt);
      if checked.Err? {
        return Err(checked.reason);
      }
      res := relay.FreezeVerifiedPaymentRails(id, rails, frozenAt, rpc, flushed);
    }

    /** Up to the first await. */
    method StartBroadcast(id: string, invitationId: Option<string>, token: string, now: int) returns (res: Result<PassIntent>)
      requires coordinator.relay == relay
      modifies capabilities
      ensures (capabilities.records, res) == BroadcastStarted(old(capabilities.records), relay.store.State().relay, id, invitationId, token, now)
    {
      if id !in relay.store.intents {
        return Err(NO_ACTIVE_PASS);
      }
      var consumed := capabilities.Consume(token, BindingOf(relay.store.intents[id]), now);
      if consumed.Err? {
        return Err(consumed.reason);
      }
      res := coordinator.BeginBroadcast(id, invitationId);
    }

    /** The relay reads the clock after the mission store has answered, later than the capability was consumed. */
    method Broadcast(id: string, invitationId: Option<string>, hash: string, token: string, checkedAt: int, recordedAt: int, flushed: bool)
      returns (res: Result<Hop>)
      requires coordinator.relay == relay
      modifies relay.store, capabilities
      ensures (capabilities.records, relay.store.State(), res)
           == BroadcastHandled(old(capabilities.records), coordinator.repository.State(), old(relay.store.State()), id, invitationId, hash,
                               token, checkedAt, recordedAt, flushed)
    {
      var begun := StartBroadcast(id, invitationId, token, checkedAt);
      if begun.Err? {
        return Err(begun.reason);
      }
      var checked := coordinator.CheckPath(begun.value, id);
      if checked.Err? {
        return Err(checked.reason);
      }
      res := coordinator.FinishBroadcast(id, hash, recordedAt, flushed);
    }
  }

  // ---------------------------------------------------------------- the handlers in front of the system

  function AuthorizedIntent(x: Sys, t: Turn, c: Crypto): Result<PassIntent>
    requires t.event.Authorize?
  {
    Authorized(x.coord.missions, x.coord.store, t.event.request, t.event.nonce, t.at, c.sha, c.protector, t.event.flushed).1
  }

  function AfterAuthorize(w: Web, t: Turn, token: string, c: Crypto): Web
    requires t.event.Authorize?
  {
    var e, x := t.event, w.sys.coord;
    var (records, _, _) := AuthorizeHandled(w.records, x.missions, x.store, e.request, e.nonce, token, t.at, c, e.flushed);
    Take(w, t, c).(drawn := w.drawn + {token}, records := records)
  }

  function AfterFreeze(w: Web, t: Turn, token: string, checkedAt: int, c: Crypto): Web
    requires t.event.FreezeRails?
  {
    var e, s := t.event, w.sys.coord.store;
    var (records, _, _) := FreezeHandled(w.records, s, e.id, e.candidates, token, checkedAt, t.at, e.rpc, e.flushed);
    if e.id in s.relay.intents && Checked(w.records, token, BindingOf(s.relay.intents[e.id]), checkedAt).1.Ok?
    then Take(w, t, c).(records := records) else w.(records := records)
  }

  function AfterBroadcast(w: Web, t: Turn, token: string, c: Crypto): Web
    requires t.event.StartBroadcast?
  {
    var e, r := t.event, w.sys.coord.store.relay;
    var (records, _) := BroadcastStarted(w.records, r, e.id, e.invitationId, token, t.at);
    if e.id in r.intents && Consumed(w.records, token, BindingOf(r.intents[e.id]), t.at).1.Ok?
    then Take(w, t, c).(records := records) else w.(records := records)
  }

  /** Requests reach authorize, freeze and broadcast only through their handlers; a restart forgets every capability. */
  predicate IsWellFormed(q: Request) {
    match q
    case Authorizing(t, _) => t.event.Authorize?
    case Freezing(t, _, _) => t.event.FreezeRails?
    case Broadcasting(t, _) => t.event.StartBroadcast?
    case Anything(t) => !t.event.Authorize? && !t.event.FreezeRails? && !t.event.StartBroadcast?
  }

  function Serve(w: Web, q: Request, c: Crypto): Web
    requires IsWellFormed(q)
  {
    match q
    case Authorizing(t, token) => AfterAuthorize(w, t, token, c)
    case Freezing(t, token, at) => AfterFreeze(w, t, token, at, c)
    case Broadcasting(t, token) => AfterBroadcast(w, t, token, c)
    case Anything(t) => if t.event.Crash? then Take(w, t, c).(records := map[]) else Take(w, t, c)
  }

  /** Tokens and nonces are fresh: openedAt names the one authorization that drew a nonce. */
  ghost predicate IsLegal(w: Web, q: Request, openedAt: string -> int) {
    && IsWellFormed(q) && System.Legal(w.sys, q.turn)
    && (q.Freezing? ==> w.sys.clock <= q.checkedAt <= q.turn.at)
    && (q.Authorizing? ==> q.token !in w.drawn && openedAt(q.turn.event.nonce) == q.turn.at)
  }

  /** Every nonce in the log was drawn when openedAt says. */
  predicate NoncesAreFresh(log: seq<Turn>, openedAt: string -> int) {
    forall i | 0 <= i < |log| && log[i].event.Authorize? :: openedAt(log[i].event.nonce) == log[i].at
  }

  /** No capability outlives the intent it was issued for. */
  predicate WithinWindow(records: Records, openedAt: string -> int) {
    forall t | t in records :: records[t].expiresAt <= openedAt(records[t].binding.intentNonce) + Policy.INTENT_VALIDITY_WINDOW_MS
  }

  ghost predicate WebInv(w: Web, c: Crypto, openedAt: string -> int) {
    && SysInv(w.sys, c.protector) && ProvenanceInv(w.sys, w.log) && NoncesAreFresh(w.log, openedAt)
    && WithinWindow(w.records, openedAt) && w.records.Keys <= w.drawn
  }

  /** When the request's capability is looked at. */
  function CheckedAt(q: Request): int {
    if q.Freezing? then q.checkedAt else q.turn.at
  }

  lemma NamedByNonce(r: Relay, log: seq<Turn>, openedAt: string -> int, b: string)
    requires SourcedIn(r, log) && NoncesAreFresh(log, openedAt) && b in r.intents
    ensures r.intents[b].createdAt == openedAt(r.intents[b].nonce)
  {
    var j :| 0 <= j < |log| && Authorises(log[j], r.intents[b]);
  }

  lemma LiveIsSourced(x: Sys, log: seq<Turn>, p: Protector)
    requires SysInv(x, p) && ProvenanceInv(x, log)
    ensures SourcedIn(x.coord.store.relay, log)
  {
    LastIsLive(x, p);
  }

  lemma TakeKeepsInv(w: Web, t: Turn, c: Crypto, openedAt: string -> int)
    requires WebInv(w, c, openedAt) && IsSound(c.protector) && System.Legal(w.sys, t)
    requires t.event.Authorize? ==> openedAt(t.event.nonce) == t.at
    ensures WebInv(Take(w, t, c), c, openedAt)
  {
    ApplyKeepsSysInv(w.sys, t, c);
    ApplyKeepsProvenance(w.sys, t, c, w.log);
  }

  /** The intent an authorization returns is the live one afterwards. */
  lemma ReturnedIsLive(m: Missions.MissionStore, s: Store, q: AuthorizeRequest, nonce: string, at: int, c: Crypto, flushed: bool)
    requires MissionSafety.Inv(m, c.protector) && Authorized(m, s, q, nonce, at, c.sha, c.protector, flushed).1.Ok?
    ensures var (t, res) := Authorized(m, s, q, nonce, at, c.sha, c.protector, flushed);
            q.missionId in t.relay.intents && t.relay.intents[q.missionId] == res.value
  {
    assert MissionSafety.MissionOk(q.missionId, m.missions[q.missionId], c.protector);
  }

  lemma IssueKeepsWindow(records: Records, token: string, binding: PassBinding, now: int, ttl: int, openedAt: string -> int)
    requires WithinWindow(records, openedAt) && now + ttl <= openedAt(binding.intentNonce) + Policy.INTENT_VALIDITY_WINDOW_MS
    ensures WithinWindow(Granted(records, token, binding, now, ttl).0, openedAt)
    ensures Granted(records, token, binding, now, ttl).0.Keys <= records.Keys + {token}
  {
  }

  lemma UseKeepsWindow(records: Records, token: string, binding: PassBinding, now: int, openedAt: string -> int)
    requires WithinWindow(records, openedAt)
    ensures var after := Checked(records, token, binding, now).0; WithinWindow(after, openedAt) && after.Keys <= records.Keys
    ensures var after := Consumed(records, token, binding, now).0; WithinWindow(after, openedAt) && after.Keys <= records.Keys
  {
  }

  lemma AuthorizeKeepsInv(w: Web, t: Turn, token: string, c: Crypto, openedAt: string -> int)
    requires WebInv(w, c, openedAt) && IsSound(c.protector) && IsLegal(w, Authorizing(t, token), openedAt)
    ensures WebInv(AfterAuthorize(w, t, token, c), c, openedAt)
  {
    TakeKeepsInv(w, t, c, openedAt);
    if AuthorizedIntent(w.sys, t, c).Ok? { ReturnedIsNamed(w, t, c, openedAt); }
    AuthorizedRecords(w, t, token, c, openedAt);
  }

  /** The new capability expires with its intent at the latest. */
  lemma AuthorizedRecords(w: Web, t: Turn, token: string, c: Crypto, openedAt: string -> int)
    requires t.event.Authorize? && WithinWindow(w.records, openedAt) && w.records.Keys <= w.drawn
    requires var res := AuthorizedIntent(w.sys, t, c); res.Ok? ==> res.value.createdAt == openedAt(res.value.nonce)
    ensures var after := AfterAuthorize(w, t, token, c);
            && after.sys == Take(w, t, c).sys && after.log == Take(w, t, c).log
            && WithinWindow(after.records, openedAt) && after.records.Keys <= after.drawn
  {
    var res, q := AuthorizedIntent(w.sys, t, c), t.event.request;
    if res.Ok? {
      var binding := PassBinding(q.missionId, res.value.invitationId, res.value.sequence, res.value.nonce, q.auth.wallet);
      IssueKeepsWindow(w.records, token, binding, q.now, TtlFor(res.value, q.now), openedAt);
    }
  }

  lemma ReturnedIsNamed(w: Web, t: Turn, c: Crypto, openedAt: string -> int)
    requires WebInv(w, c, openedAt) && WebInv(Take(w, t, c), c, openedAt) && t.event.Authorize? && AuthorizedIntent(w.sys, t, c).Ok?
    ensures var i := AuthorizedIntent(w.sys, t, c).value; i.createdAt == openedAt(i.nonce)
  {
    var q, taken := t.event.request, Take(w, t, c);
    LiveIsValid(w.sys, c.protector);
    ReturnedIsLive(w.sys.coord.missions, w.sys.coord.store, q, t.event.nonce, t.at, c, t.event.flushed);
    StoreAfterAuthorize(w.sys, t, c);
    LiveIsSourced(taken.sys, taken.log, c.protector);
    NamedByNonce(taken.sys.coord.store.relay, taken.log, openedAt, q.missionId);
  }

  lemma StoreAfterAuthorize(x: Sys, t: Turn, c: Crypto)
    requires t.event.Authorize?
    ensures Apply(x, t, c).coord.store
         == Authorized(x.coord.missions, x.coord.store, t.event.request, t.event.nonce, t.at, c.sha, c.protector, t.event.flushed).0
  {
  }

  lemma RecordsKeepInv(w: Web, records: Records, c: Crypto, openedAt: string -> int)
    requires WebInv(w, c, openedAt) && WithinWindow(records, openedAt) && records.Keys <= w.drawn
    ensures WebInv(w.(records := records), c, openedAt)
  {
  }

  lemma ServeKeepsInv(w: Web, q: Request, c: Crypto, openedAt: string -> int)
    requires WebInv(w, c, openedAt) && IsSound(c.protector) && IsLegal(w, q, openedAt)
    ensures WebInv(Serve(w, q, c), c, openedAt)
  {
    if q.Authorizing? {
      AuthorizeKeepsInv(w, q.turn, q.token, c, openedAt);
    } else {
      TakeKeepsInv(w, q.turn, c, openedAt);
      ServedRecords(w, q, c, openedAt);
      var records := Serve(w, q, c).records;
      RecordsKeepInv(w, records, c, openedAt);
      RecordsKeepInv(Take(w, q.turn, c), records, c, openedAt);
    }
  }

  /** Outside authorize, serving takes the step or not, and only shrinks or spends capabilities. */
  lemma ServedRecords(w: Web, q: Request, c: Crypto, openedAt: string -> int)
    requires IsWellFormed(q) && !q.Authorizing? && WithinWindow(w.records, openedAt)
    ensures var records := Serve(w, q, c).records;
            && WithinWindow(records, openedAt) && records.Keys <= w.records.Keys
            && (Serve(w, q, c) == w.(records := records) || Serve(w, q, c) == Take(w, q.turn, c).(records := records))
  {
    var intents := w.sys.coord.store.relay.intents;
    if (q.Freezing? || q.Broadcasting?) && q.turn.event.id in intents {
      UseKeepsWindow(w.records, q.token, BindingOf(intents[q.turn.event.id]), CheckedAt(q), openedAt);
    }
  }

  /** What a served request leaves in the relay is what its handler leaves there. */
  lemma ServingIsHandling(w: Web, q: Request, c: Crypto)
    requires IsWellFormed(q)
    ensures var x, t := w.sys.coord, q.turn;
            var e, after := t.event, Serve(w, q, c);
            match q
            case Authorizing(_, token) =>
              (after.records, after.sys.coord.store)
              == var (r, s, _) := AuthorizeHandled(w.records, x.missions, x.store, e.request, e.nonce, token, t.at, c, e.flushed); (r, s)
            case Freezing(_, token, at) =>
              (after.records, after.sys.coord.store)
              == var (r, s, _) := FreezeHandled(w.records, x.store, e.id, e.candidates, token, at, t.at, e.rpc, e.flushed); (r, s)
            case Broadcasting(_, token) =>
              after.records == BroadcastStarted(w.records, x.store.relay, e.id, e.invitationId, token, t.at).0 && after.sys.coord == x
            case Anything(_) => true
  {
  }

  /** The request passes its capability. */
  predicate IsAdmitted(w: Web, q: Request)
    requires IsWellFormed(q)
  {
    q.Broadcasting? && q.turn.event.id in w.sys.coord.store.relay.intents
    && Consumed(w.records, q.token, BindingOf(w.sys.coord.store.relay.intents[q.turn.event.id]), q.turn.at).1.Ok?
  }

  /** Passing the capability means it names the live intent, whose window is still open then and until the token expires. */
  lemma AdmittedIsFresh(w: Web, q: Request, c: Crypto, openedAt: string -> int)
    requires WebInv(w, c, openedAt) && IsWellFormed(q) && IsAdmitted(w, q)
    ensures var intent := w.sys.coord.store.relay.intents[q.turn.event.id];
            && q.token in w.records && w.records[q.token].binding == BindingOf(intent)
            && q.turn.at < w.records[q.token].expiresAt <= intent.createdAt + Policy.INTENT_VALIDITY_WINDOW_MS
  {
    var r := w.sys.coord.store.relay;
    LiveIsSourced(w.sys, w.log, c.protector);
    NamedByNonce(r, w.log, openedAt, q.turn.event.id);
    AcceptedExactlyWhen(w.records, q.token, BindingOf(r.intents[q.turn.event.id]), q.turn.at);
  }

  /** The two intents are one delivery attempt: mission, invitation, sequence, nonce and holder agree. */
  predicate IsSameAttempt(i: PassIntent, j: PassIntent) {
    i.batonId == j.batonId && i.invitationId == j.invitationId && i.sequence == j.sequence && i.nonce == j.nonce && i.currentHolder == j.currentHolder
  }

  /** The earlier of a quarter of an hour after the request and the end of the intent's window. */
  function TokenEnd(i: PassIntent, requested: int): int {
    var window := i.createdAt + Policy.INTENT_VALIDITY_WINDOW_MS;
    if requested + 15 * 60_000 <= window then requested + 15 * 60_000 else window
  }

  lemma TokenIsIssued(records: Records, m: Missions.MissionStore, s: Store, q: AuthorizeRequest, nonce: string, token: string, created: int,
                      c: Crypto, flushed: bool)
    requires MissionSafety.Inv(m, c.protector) && Good(s.relay, m, c.protector)
    ensures var (after, t, res) := AuthorizeHandled(records, m, s, q, nonce, token, created, c, flushed);
            res.Ok? ==>
              && IsGiven(res.value.recipientData) && q.now < TokenEnd(res.value, q.now)
              && after == Next(records, Issue(token, BindingOf(res.value), q.now, TokenEnd(res.value, q.now) - q.now))
  {
    var res := Authorized(m, s, q, nonce, created, c.sha, c.protector, flushed).1;
    HandlingGrants(records, m, s, q, nonce, token, created, c, flushed);
    if res.Ok? {
      Signatures.AnsweredIsOwn(m, s, q, nonce, created, c, flushed);
      GrantingIssues(records, res.value, q, token);
    }
  }

  lemma HandlingGrants(records: Records, m: Missions.MissionStore, s: Store, q: AuthorizeRequest, nonce: string, token: string, created: int,
                       c: Crypto, flushed: bool)
    ensures var (after, _, res) := AuthorizeHandled(records, m, s, q, nonce, token, created, c, flushed);
            res.Ok? ==>
              && res == Authorized(m, s, q, nonce, created, c.sha, c.protector, flushed).1 && TtlFor(res.value, q.now) > 0
              && var i := res.value;
                 after == Granted(records, token, PassBinding(q.missionId, i.invitationId, i.sequence, i.nonce, q.auth.wallet), q.now, TtlFor(i, q.now)).0
  {
  }

  lemma GrantingIssues(records: Records, i: PassIntent, q: AuthorizeRequest, token: string)
    requires i.batonId == q.missionId && i.currentHolder == q.auth.wallet
    ensures TtlFor(i, q.now) == TokenEnd(i, q.now) - q.now
    ensures Granted(records, token, PassBinding(q.missionId, i.invitationId, i.sequence, i.nonce, q.auth.wallet), q.now, TtlFor(i, q.now)).0
         == Next(records, Issue(token, BindingOf(i), q.now, TokenEnd(i, q.now) - q.now))
  {
  }

  /**
   * The token an authorization hands out lets a broadcast start exactly for the same delivery attempt, before its end, and
   * as long as it has not been spent: whatever else is authorized, frozen or broadcast in between does not take it away.
   */
  lemma IssuedTokenIsAdmittedExactlyWhen(records: Records, m: Missions.MissionStore, s: Store, q: AuthorizeRequest, nonce: string, token: string,
                                         created: int, c: Crypto, flushed: bool, trace: seq<Call>, r: Relay, b: string, at: int)
    requires MissionSafety.Inv(m, c.protector) && Good(s.relay, m, c.protector)
    requires AuthorizeHandled(records, m, s, q, nonce, token, created, c, flushed).2.Ok? && NeverIssues(trace, token)
    requires b in r.intents && IsGiven(r.intents[b].recipientData)
    ensures var (after, _, res) := AuthorizeHandled(records, m, s, q, nonce, token, created, c, flushed);
            var i, live := res.value, r.intents[b];
            (BroadcastStarted(BroadcastCapability.Run(after, trace), r, b, live.invitationId, token, at).1.Ok?
             <==> IsSameAttempt(i, live) && at < TokenEnd(i, q.now) && Spares(trace, token, BindingOf(i), TokenEnd(i, q.now)))
  {
    var (after, _, res) := AuthorizeHandled(records, m, s, q, nonce, token, created, c, flushed);
    var i, live, end := res.value, r.intents[b], TokenEnd(res.value, q.now);
    TokenIsIssued(records, m, s, q, nonce, token, created, c, flushed);
    PresentedTokenExactly(records, Issue(token, BindingOf(i), q.now, end - q.now));
    UsableExactlyWhenSpared(after, trace, token, BindingOf(i), end);
    AcceptedExactlyWhen(BroadcastCapability.Run(after, trace), token, BindingOf(live), at);
    BindingsKeepTheirToken(after, trace, token);
  }

  /** An authorization that comes when its intent's window is over opens or finds the intent, but hands out no token. */
  lemma LateAnswersGetNoToken(records: Records, m: Missions.MissionStore, s: Store, q: AuthorizeRequest, nonce: string, token: string, created: int,
                              c: Crypto, flushed: bool)
    requires var res := Authorized(m, s, q, nonce, created, c.sha, c.protector, flushed).1; res.Ok? && TokenEnd(res.value, q.now) <= q.now
    ensures AuthorizeHandled(records, m, s, q, nonce, token, created, c, flushed)
         == (records, Authorized(m, s, q, nonce, created, c.sha, c.protector, flushed).0, Err(PASS_INTENT_EXPIRED))
  {
  }

  /** A freeze goes through to the relay exactly with an unspent, unexpired token of the open intent, and does not spend it. */
  lemma FreezeNeedsItsToken(records: Records, s: Store, id: string, rails: seq<string>, token: string, checkedAt: int, frozenAt: int, rpc: Rpc,
                            flushed: bool)
    ensures var (kept, t, res) := FreezeHandled(records, s, id, rails, token, checkedAt, frozenAt, rpc, flushed);
            if && id in s.relay.intents && token in records && records[token].consumedAt.None? && checkedAt < records[token].expiresAt
               && var i, b := s.relay.intents[id], records[token].binding;
                  b.missionId == i.batonId && b.invitationId == i.invitationId && b.sequence == i.sequence && b.intentNonce == i.nonce
                  && b.holderWallet == i.currentHolder
            then (t, res) == FrozenDurably(s, id, rails, frozenAt, rpc, flushed) && token in kept && kept[token] == records[token]
            else t == s && res.Err?
  {
  }

  /** A token that is not issued again keeps its binding and its end as long as it is known. */
  lemma {:induction false} BindingsKeepTheirToken(records: Records, trace: seq<Call>, token: string)
    requires NeverIssues(trace, token)
    ensures var after := BroadcastCapability.Run(records, trace);
            token in after ==> token in records && after[token] == records[token].(consumedAt := after[token].consumedAt)
    decreases |trace|
  {
    if |trace| > 0 {
      if trace[0].token != token { OtherTokensExactly(records, trace[0], token); } else { PresentedTokenExactly(records, trace[0]); }
      BindingsKeepTheirToken(Next(records, trace[0]), trace[1..], token);
    }
  }

  lemma AdmittedIsSpent(w: Web, q: Request, c: Crypto)
    requires IsWellFormed(q) && IsAdmitted(w, q)
    ensures IsSpent(Serve(w, q, c).records, q.token)
  {
  }

  // ---------------------------------------------------------------- over whole runs

  function ServeAll(w: Web, trace: seq<Request>, c: Crypto): Web
    requires forall i | 0 <= i < |trace| :: IsWellFormed(trace[i])
    decreases |trace|
  {
    if |trace| == 0 then w else ServeAll(Serve(w, trace[0], c), trace[1..], c)
  }

  ghost predicate AllLegal(w: Web, trace: seq<Request>, c: Crypto, openedAt: string -> int)
    decreases |trace|
  {
    |trace| > 0 ==> IsLegal(w, trace[0], openedAt) && AllLegal(Serve(w, trace[0], c), trace[1..], c, openedAt)
  }

  lemma {:induction false} LegalIsWellFormed(w: Web, trace: seq<Request>, c: Crypto, openedAt: string -> int)
    requires AllLegal(w, trace, c, openedAt)
    ensures forall i | 0 <= i < |trace| :: IsWellFormed(trace[i])
    decreases |trace|
  {
    if |trace| > 0 {
      LegalIsWellFormed(Serve(w, trace[0], c), trace[1..], c, openedAt);
      forall i | 0 <= i < |trace| ensures IsWellFormed(trace[i]) {
        if i > 0 { assert trace[i] == trace[1..][i - 1]; }
      }
    }
  }

  const QUIET := Web(START, [], map[], {})

  lemma {:induction false} ServeInduction(w: Web, trace: seq<Request>, c: Crypto, openedAt: string -> int, P: Web -> bool)
    requires AllLegal(w, trace, c, openedAt) && P(w) && forall i | 0 <= i < |trace| :: IsWellFormed(trace[i])
    requires forall v, q | IsLegal(v, q, openedAt) && P(v) :: P(Serve(v, q, c))
    ensures P(ServeAll(w, trace, c))
    decreases |trace|
  {
    if |trace| > 0 { ServeInduction(Serve(w, trace[0], c), trace[1..], c, openedAt, P); }
  }

  /** Legal requests, in any number and order, keep the stores in step and let no capability outlive its intent. */
  lemma ServingKeepsInv(w: Web, trace: seq<Request>, c: Crypto, openedAt: string -> int)
    requires WebInv(w, c, openedAt) && IsSound(c.protector) && AllLegal(w, trace, c, openedAt)
    requires forall i | 0 <= i < |trace| :: IsWellFormed(trace[i])
    ensures WebInv(ServeAll(w, trace, c), c, openedAt)
  {
    forall v, q | IsLegal(v, q, openedAt) && WebInv(v, c, openedAt) ensures WebInv(Serve(v, q, c), c, openedAt) {
      ServeKeepsInv(v, q, c, openedAt);
    }
    ServeInduction(w, trace, c, openedAt, v => WebInv(v, c, openedAt));
  }

  lemma QuietIsValid(c: Crypto, openedAt: string -> int)
    ensures WebInv(QUIET, c, openedAt)
  {
    StartIsReady(c.protector);
    assert forall b, k :: GetHop([], b, k) == None;
  }

  /** No capability outlives its intent in any state the requests can reach. */
  lemma ReachableCapabilitiesEndInTime(trace: seq<Request>, c: Crypto, openedAt: string -> int)
    requires IsSound(c.protector) && AllLegal(QUIET, trace, c, openedAt) && forall i | 0 <= i < |trace| :: IsWellFormed(trace[i])
    ensures var w := ServeAll(QUIET, trace, c);
            && SysInv(w.sys, c.protector) && WithinWindow(w.records, openedAt)
            && forall b | b in w.sys.coord.store.relay.intents ::
                 w.sys.coord.store.relay.intents[b].createdAt == openedAt(w.sys.coord.store.relay.intents[b].nonce)
  {
    QuietIsValid(c, openedAt);
    ServingKeepsInv(QUIET, trace, c, openedAt);
    var w := ServeAll(QUIET, trace, c);
    LiveIsSourced(w.sys, w.log, c.protector);
    forall b | b in w.sys.coord.store.relay.intents
      ensures w.sys.coord.store.relay.intents[b].createdAt == openedAt(w.sys.coord.store.relay.intents[b].nonce)
    {
      NamedByNonce(w.sys.coord.store.relay, w.log, openedAt, b);
    }
  }

  lemma SpentStays(w: Web, q: Request, c: Crypto, openedAt: string -> int, token: string)
    requires IsLegal(w, q, openedAt) && token in w.drawn && IsSpent(w.records, token)
    ensures token in Serve(w, q, c).drawn && IsSpent(Serve(w, q, c).records, token)
  {
    match q
    case Authorizing(t, drawn) => AuthorizingKeepsSpent(w, t, drawn, c, token);
    case Freezing(t, used, at) => FreezingKeepsSpent(w, t, used, at, c, token);
    case Broadcasting(t, used) => BroadcastingKeepsSpent(w, t, used, c, token);
    case Anything(_) =>
  }

  lemma FreezingKeepsSpent(w: Web, t: Turn, used: string, at: int, c: Crypto, token: string)
    requires t.event.FreezeRails? && token in w.drawn && IsSpent(w.records, token)
    ensures token in AfterFreeze(w, t, used, at, c).drawn && IsSpent(AfterFreeze(w, t, used, at, c).records, token)
  {
  }

  lemma BroadcastingKeepsSpent(w: Web, t: Turn, used: string, c: Crypto, token: string)
    requires t.event.StartBroadcast? && token in w.drawn && IsSpent(w.records, token)
    ensures token in AfterBroadcast(w, t, used, c).drawn && IsSpent(AfterBroadcast(w, t, used, c).records, token)
  {
  }

  lemma AuthorizingKeepsSpent(w: Web, t: Turn, drawn: string, c: Crypto, token: string)
    requires t.event.Authorize? && drawn !in w.drawn && token in w.drawn && IsSpent(w.records, token)
    ensures IsSpent(AfterAuthorize(w, t, drawn, c).records, token)
  {
  }

  /** A spent token is never admitted again, in whatever order requests, restarts and clock readings come. */
  lemma {:induction false} SpentIsNeverAdmitted(w: Web, trace: seq<Request>, c: Crypto, openedAt: string -> int, q: Request)
    requires AllLegal(w, trace, c, openedAt) && forall i | 0 <= i < |trace| :: IsWellFormed(trace[i])
    requires IsWellFormed(q) && q.Broadcasting? && q.token in w.drawn && IsSpent(w.records, q.token)
    ensures !IsAdmitted(ServeAll(w, trace, c), q)
    decreases |trace|
  {
    if |trace| > 0 {
      SpentStays(w, trace[0], c, openedAt, q.token);
      SpentIsNeverAdmitted(Serve(w, trace[0], c), trace[1..], c, openedAt, q);
    }
  }

  // ---------------------------------------------------------------- the intent an admitted broadcast attaches to

  /** No request stops the process. */
  predicate NeverStops(trace: seq<Request>) {
    forall i | 0 <= i < |trace| :: !trace[i].turn.event.Crash?
  }

  /** The turns taken between two moments. */
  function Since(v: Web, u: Web): seq<Turn> {
    if |v.log| <= |u.log| then u.log[|v.log|..] else []
  }

  /** A request takes its turn or is turned away. */
  lemma ServedIsATurn(w: Web, q: Request, c: Crypto)
    requires IsWellFormed(q)
    ensures var v := Serve(w, q, c);
            (v.log == w.log && v.sys == w.sys) || (v.log == w.log + [q.turn] && v.sys == Apply(w.sys, q.turn, c))
  {
  }

  /** The turns since w lead from its system to u's. */
  ghost predicate IsServedRun(w: Web, u: Web, c: Crypto) {
    && |w.log| <= |u.log| && u.log[..|w.log|] == w.log
    && LegalRun(w.sys, Since(w, u), c) && u.sys == System.Run(w.sys, Since(w, u), c) && IntentSpacing.NoCrash(Since(w, u))
  }

  lemma {:induction false} ServedIsARun(w: Web, trace: seq<Request>, c: Crypto, openedAt: string -> int)
    requires AllLegal(w, trace, c, openedAt) && NeverStops(trace) && forall i | 0 <= i < |trace| :: IsWellFormed(trace[i])
    ensures IsServedRun(w, ServeAll(w, trace, c), c)
    decreases |trace|
  {
    if |trace| > 0 {
      ServedIsARun(Serve(w, trace[0], c), trace[1..], c, openedAt);
      OneServedMore(w, trace[0], ServeAll(w, trace, c), c, openedAt);
    }
  }

  lemma OneServedMore(w: Web, q: Request, u: Web, c: Crypto, openedAt: string -> int)
    requires IsLegal(w, q, openedAt) && !q.turn.event.Crash? && IsServedRun(Serve(w, q, c), u, c)
    ensures IsServedRun(w, u, c)
  {
    var v := Serve(w, q, c);
    ServedIsATurn(w, q, c);
    if v.log == w.log { assert Since(w, u) == Since(v, u); } else { OneTurnBefore(w, v, u, q.turn, c); }
  }

  lemma OneTurnBefore(w: Web, v: Web, u: Web, t: Turn, c: Crypto)
    requires v.log == w.log + [t] && v.sys == Apply(w.sys, t, c) && IsServedRun(v, u, c) && System.Legal(w.sys, t) && !t.event.Crash?
    ensures IsServedRun(w, u, c)
  {
    assert u.log[..|w.log|] == v.log[..|w.log|] == w.log;
    assert u.log[|w.log|] == v.log[|w.log|] == t;
    OneTurnMore(w, t, c, Since(w, u), Since(v, u));
  }

  lemma OneTurnMore(w: Web, t: Turn, c: Crypto, turns: seq<Turn>, rest: seq<Turn>)
    requires System.Legal(w.sys, t) && !t.event.Crash? && LegalRun(Apply(w.sys, t, c), rest, c) && IntentSpacing.NoCrash(rest)
    requires |turns| == |rest| + 1 && turns[0] == t && turns[1..] == rest
    ensures LegalRun(w.sys, turns, c) && System.Run(w.sys, turns, c) == System.Run(Apply(w.sys, t, c), rest, c) && IntentSpacing.NoCrash(turns)
  {
    assert forall i | 0 < i < |turns| :: turns[i] == rest[i - 1];
  }

  /**
   * An admitted broadcast spends its token, which was issued for intent i, the live one. Whatever requests are served before
   * its hash is recorded: up to the end of i's window the hash goes to i, or nowhere because the delivery is FINAL or the
   * hash is taken; after that it goes somewhere exactly when the mission was authorized anew since, that intent is open and
   * not stale and the hash is free, and then to that intent, whose nonce the token was not issued for.
   */
  lemma AdmittedBroadcastIsForItsIntent(w: Web, q: Request, v: Web, trace: seq<Request>, u: Web, c: Crypto, openedAt: string -> int, at: int)
    requires WebInv(w, c, openedAt) && IsSound(c.protector) && IsLegal(w, q, openedAt) && IsAdmitted(w, q) && v == Serve(w, q, c)
    requires BroadcastBegun(w.sys.coord.store.relay, q.turn.event.id, q.turn.event.invitationId).Ok?
    requires AllLegal(v, trace, c, openedAt) && NeverStops(trace) && forall i | 0 <= i < |trace| :: IsWellFormed(trace[i])
    requires u == ServeAll(v, trace, c) && u.sys.clock <= at
    ensures var e, i, s := q.turn.event, w.sys.coord.store.relay.intents[q.turn.event.id], u.sys.coord.store;
            && w.records[q.token].binding == BindingOf(i) && IsSpent(v.records, q.token)
            && |w.sys.calls| < |u.sys.calls| && u.sys.calls[|w.sys.calls|].id == e.id && u.sys.calls[|w.sys.calls|].hash == e.hash
            && (at <= i.createdAt + Policy.INTENT_VALIDITY_WINDOW_MS ==> AttachesToItsOwn(s, e.id, i, e.hash, at))
            && (at > i.createdAt + Policy.INTENT_VALIDITY_WINDOW_MS ==>
                  AttachesElsewhere(s, e.id, i, e.hash, at, v.sys, Since(v, u), c) && NonceDiffers(s, e.id, i, e.hash, at))
  {
    AdmittedIsFresh(w, q, c, openedAt);
    AdmittedIsSpent(w, q, c);
    AdmittedTakesItsTurn(w, q, c);
    ServedIsARun(v, trace, c, openedAt);
    RecordingAttachesExactlyWhen(w.sys, q.turn, Since(v, u), c, at);
    ServeKeepsInv(w, q, c, openedAt);
    ServingKeepsInv(v, trace, c, openedAt);
    var e, i := q.turn.event, w.sys.coord.store.relay.intents[q.turn.event.id];
    if at > i.createdAt + Policy.INTENT_VALIDITY_WINDOW_MS { ElsewhereIsAnotherNonce(w, v, u, c, openedAt, e.id, e.hash, at, Since(v, u)); }
  }

  /** What the hash is attached to, if anything, is not what the token was issued for. */
  predicate NonceDiffers(s: Store, b: string, i: PassIntent, hash: TxHash, at: int) {
    var res := HashRecorded(s, b, hash, at, true).1;
    res.Ok? ==> res.value.nonce != i.nonce
  }

  lemma ElsewhereIsAnotherNonce(w: Web, v: Web, u: Web, c: Crypto, openedAt: string -> int, b: string, hash: TxHash, at: int, turns: seq<Turn>)
    requires WebInv(w, c, openedAt) && WebInv(u, c, openedAt) && b in w.sys.coord.store.relay.intents
    requires AttachesElsewhere(u.sys.coord.store, b, w.sys.coord.store.relay.intents[b], hash, at, v.sys, turns, c)
    ensures NonceDiffers(u.sys.coord.store, b, w.sys.coord.store.relay.intents[b], hash, at)
  {
    if HashRecorded(u.sys.coord.store, b, hash, at, true).1.Ok? { OtherNonce(w, u, c, openedAt, b); }
  }

  lemma AdmittedTakesItsTurn(w: Web, q: Request, c: Crypto)
    requires IsWellFormed(q) && IsAdmitted(w, q)
    ensures Serve(w, q, c).sys == Apply(w.sys, q.turn, c)
  {
  }

  /** Nonces are drawn once, so intents opened at different times have different ones. */
  lemma OtherNonce(w: Web, u: Web, c: Crypto, openedAt: string -> int, b: string)
    requires WebInv(w, c, openedAt) && WebInv(u, c, openedAt) && b in w.sys.coord.store.relay.intents && b in u.sys.coord.store.relay.intents
    ensures var i, j := w.sys.coord.store.relay.intents[b], u.sys.coord.store.relay.intents[b];
            i.createdAt != j.createdAt ==> i.nonce != j.nonce
  {
    LiveIsSourced(w.sys, w.log, c.protector);
    LiveIsSourced(u.sys, u.log, c.protector);
    NamedByNonce(w.sys.coord.store.relay, w.log, openedAt, b);
    NamedByNonce(u.sys.coord.store.relay, u.log, openedAt, b);
  }
}
