/** Short-lived, single-use bearer tokens that tie a broadcast to the exact intent that was signed for. */
module BroadcastCapability {
  import opened Domain

  const BROADCAST_CAPABILITY_TTL_MS := 15 * 60 * 1000

  datatype PassBinding = PassBinding(missionId: string, invitationId: Option<string>, sequence: int, intentNonce: string, holderWallet: string)

  datatype Capability = Capability(binding: PassBinding, expiresAt: int, consumedAt: Option<int>)

  type Records = map<string, Capability>

  /** Expired records go, consumed or not; the token being presented stays so that it can be answered precisely. */
  function Pruned(records: Records, now: int, keep: Option<string>): Records {
    map t | t in records && (keep == Some(t) || now < records[t].expiresAt) :: records[t]
  }

  function Granted(records: Records, token: string, binding: PassBinding, now: int, ttlMs: int): (Records, Result<int>) {
    if ttlMs <= 0 then (records, Err(CAPABILITY_TTL_INVALID))
    else (Pruned(records, now, None)[token := Capability(binding, now + ttlMs, None)], Ok(now + ttlMs))
  }

  function Checked(records: Records, token: string, expected: PassBinding, now: int): (Records, Result<Capability>) {
    var kept := Pruned(records, now, Some(token));
    if token !in kept then (kept, Err(CAPABILITY_NOT_FOUND))
    else if kept[token].consumedAt.Some? then (kept, Err(CAPABILITY_REPLAY))
    else if now >= kept[token].expiresAt then (kept - {token}, Err(CAPABILITY_EXPIRED))
    else if kept[token].binding != expected then (kept, Err(CAPABILITY_BINDING_MISMATCH))
    else (kept, Ok(kept[token]))
  }

  function Consumed(records: Records, token: string, expected: PassBinding, now: int): (Records, Result<()>) {
    match Checked(records, token, expected, now)
    case (kept, Err(reason)) => (kept, Err(reason))
    case (kept, Ok(record)) => (kept[token := record.(consumedAt := Some(now))], Ok(()))
  }

  class MemoryBroadcastCapabilityStore {
    var records: Records

    constructor ()
      ensures records == map[]
    {
      records := map[];
    }

    method Prune(now: int, keep: Option<string>)
      modifies this
      ensures records == Pruned(old(records), now, keep)
    {
      var todo := records.Keys;
      ghost var before := records;
      while todo != {}
        invariant todo <= before.Keys
        invariant records == map t | t in before && (t in todo || keep == Some(t) || now < before[t].expiresAt) :: before[t]
        decreases |todo|
      {
        var t :| t in todo;
        if keep != Some(t) && now >= records[t].expiresAt {
          records := records - {t};
        }
        todo := todo - {t};
      }
    }

    method Issue(binding: PassBinding, now: int, ttlMs: int, token: string) returns (res: Result<int>)
      modifies this
      ensures (records, res) == Granted(old(records), token, binding, now, ttlMs)
    {
      if ttlMs <= 0 {
        return Err(CAPABILITY_TTL_INVALID);
      }
      Prune(now, None);
      records := records[token := Capability(binding, now + ttlMs, None)];
      return Ok(now + ttlMs);
    }

    method RequireValid(token: string, expected: PassBinding, now: int) returns (res: Result<Capability>)
      modifies this
      ensures (records, res) == Checked(old(records), token, expected, now)
    {
      Prune(now, Some(token));
      if token !in records {
        return Err(CAPABILITY_NOT_FOUND);
      }
      var record := records[token];
      if record.consumedAt.Some? {
        return Err(CAPABILITY_REPLAY);
      }
      if now >= record.expiresAt {
        records := records - {token};
        return Err(CAPABILITY_EXPIRED);
      }
      if record.binding.missionId != expected.missionId || record.binding.invitationId != expected.invitationId
         || record.binding.sequence != expected.sequence || record.binding.intentNonce != expected.intentNonce
         || record.binding.holderWallet != expected.holderWallet {
        return Err(CAPABILITY_BINDING_MISMATCH);
      }
      return Ok(record);
    }

    method Assert(token: string, expected: PassBinding, now: int) returns (res: Result<Capability>)
      modifies this
      ensures (records, res) == Checked(old(records), token, expected, now)
    {
      res := RequireValid(token, expected, now);
    }

    method Consume(token: string, expected: PassBinding, now: int) returns (res: Result<()>)
      modifies this
      ensures (records, res) == Consumed(old(records), token, expected, now)
    {
      var checked := RequireValid(token, expected, now);
      if checked.Err? {
        return Err(checked.reason);
      }
      records := records[token := checked.value.(consumedAt := Some(now))];
      return Ok(());
    }
  }

  // ---------------------------------------------------------------- at most one consumption per token

  datatype Call =
    | Issue(token: string, binding: PassBinding, at: int, ttlMs: int)
    | Assert(token: string, binding: PassBinding, at: int)
    | Consume(token: string, binding: PassBinding, at: int)

  function Next(records: Records, c: Call): Records {
    match c
    case Issue(token, binding, at, ttlMs) => Granted(records, token, binding, at, ttlMs).0
    case Assert(token, binding, at) => Checked(records, token, binding, at).0
    case Consume(token, binding, at) => Consumed(records, token, binding, at).0
  }

  function Run(records: Records, trace: seq<Call>): Records
    decreases |trace|
  {
    if |trace| == 0 then records else Run(Next(records, trace[0]), trace[1..])
  }

  predicate Accepts(records: Records, c: Call) {
    c.Consume? && Consumed(records, c.token, c.binding, c.at).1.Ok?
  }

  predicate IsSpent(records: Records, token: string) {
    token in records ==> records[token].consumedAt.Some?
  }

  /** A token is drawn at random once. */
  predicate NeverIssues(trace: seq<Call>, token: string) {
    forall i | 0 <= i < |trace| && trace[i].Issue? :: trace[i].token != token
  }

  lemma {:induction false} SpentStaysSpent(records: Records, trace: seq<Call>, token: string)
    requires IsSpent(records, token) && NeverIssues(trace, token)
    ensures IsSpent(Run(records, trace), token)
    decreases |trace|
  {
    if |trace| > 0 { SpentStaysSpent(Next(records, trace[0]), trace[1..], token); }
  }

  /**
   * A token is consumed at most once over any run, pruned or not, whatever the clock readings: after one accepted
   * consumption of it, and as long as it is not drawn again, no later one is accepted.
   */
  lemma ConsumedAtMostOnce(records: Records, first: Call, between: seq<Call>, second: Call)
    requires Accepts(records, first) && NeverIssues(between, first.token) && second.Consume? && second.token == first.token
    ensures !Accepts(Run(Next(records, first), between), second)
  {
    SpentStaysSpent(Next(records, first), between, first.token);
  }

  /** What acceptance means: the token was issued for exactly this binding, is unused and not expired. */
  lemma AcceptedExactlyWhen(records: Records, token: string, binding: PassBinding, now: int)
    ensures Consumed(records, token, binding, now).1.Ok?
       <==> token in records && records[token].binding == binding && records[token].consumedAt.None? && now < records[token].expiresAt
  {
  }

  // ---------------------------------------------------------------- what a call does to the other tokens

  predicate IsRefusedIssue(c: Call) {
    c.Issue? && c.ttlMs <= 0
  }

  /** Any call leaves every other token as it is, unless that one has expired by the call's own clock; it adds none. */
  lemma OtherTokensExactly(records: Records, c: Call, other: string)
    requires other != c.token
    ensures var after := Next(records, c);
            && (other in after <==> other in records && (IsRefusedIssue(c) || c.at < records[other].expiresAt))
            && (other in after ==> after[other] == records[other])
  {
  }

  /** The presented token: issuing starts it anew, a matching use before its time spends it, and running out unspent ends it. */
  lemma PresentedTokenExactly(records: Records, c: Call)
    requires !IsRefusedIssue(c)
    ensures var after := Next(records, c);
            if c.Issue? then c.token in after && after[c.token] == Capability(c.binding, c.at + c.ttlMs, None)
            else if c.token !in records || (records[c.token].consumedAt.None? && records[c.token].expiresAt <= c.at) then c.token !in after
            else c.token in after
                 && after[c.token] == if c.Consume? && records[c.token].consumedAt.None? && records[c.token].binding == c.binding
                                      then records[c.token].(consumedAt := Some(c.at)) else records[c.token]
  {
  }

  predicate IsUsable(records: Records, token: string, binding: PassBinding, expiresAt: int) {
    token in records && records[token] == Capability(binding, expiresAt, None)
  }

  /** Calls read a clock before the expiry, and none spends the token. */
  predicate Spares(trace: seq<Call>, token: string, binding: PassBinding, expiresAt: int) {
    forall i | 0 <= i < |trace| ::
      (IsRefusedIssue(trace[i]) || trace[i].at < expiresAt) && !(trace[i].Consume? && trace[i].token == token && trace[i].binding == binding)
  }

  lemma StepSparesExactly(records: Records, c: Call, token: string, binding: PassBinding, expiresAt: int)
    requires IsUsable(records, token, binding, expiresAt) && (c.Issue? ==> c.token != token)
    ensures IsUsable(Next(records, c), token, binding, expiresAt) <==> Spares([c], token, binding, expiresAt)
    ensures !IsUsable(Next(records, c), token, binding, expiresAt) ==> IsSpent(Next(records, c), token)
  {
    assert Spares([c], token, binding, expiresAt)
      <==> (IsRefusedIssue([c][0]) || [c][0].at < expiresAt) && !([c][0].Consume? && [c][0].token == token && [c][0].binding == binding);
    if c.token != token { OtherTokensExactly(records, c, token); } else { PresentedTokenExactly(records, c); }
  }

  lemma SparesSplits(trace: seq<Call>, token: string, binding: PassBinding, expiresAt: int)
    requires |trace| > 0
    ensures Spares(trace, token, binding, expiresAt) <==> Spares([trace[0]], token, binding, expiresAt) && Spares(trace[1..], token, binding, expiresAt)
  {
    assert [trace[0]][0] == trace[0];
    assert forall i | 0 < i < |trace| :: trace[i] == trace[1..][i - 1];
  }

  lemma {:induction false} UsableExactlyWhenSpared(records: Records, trace: seq<Call>, token: string, binding: PassBinding, expiresAt: int)
    requires IsUsable(records, token, binding, expiresAt) && NeverIssues(trace, token)
    ensures IsUsable(Run(records, trace), token, binding, expiresAt) <==> Spares(trace, token, binding, expiresAt)
    ensures !IsUsable(Run(records, trace), token, binding, expiresAt) ==> IsSpent(Run(records, trace), token)
    decreases |trace|
  {
    if |trace| > 0 {
      var after := Next(records, trace[0]);
      StepSparesExactly(records, trace[0], token, binding, expiresAt);
      SparesSplits(trace, token, binding, expiresAt);
      if IsUsable(after, token, binding, expiresAt) {
        UsableExactlyWhenSpared(after, trace[1..], token, binding, expiresAt);
      } else {
        SpentStaysSpent(after, trace[1..], token);
      }
    }
  }

  /**
   * An issued token, drawn once, is accepted for its own binding exactly until it expires or has been spent, whatever calls
   * for whatever other tokens come in between, as long as none of them reads a clock past its expiry.
   */
  lemma IssuedTokenIsAcceptedExactlyWhen(records: Records, issue: Call, trace: seq<Call>, use: Call)
    requires issue.Issue? && issue.ttlMs > 0 && NeverIssues(trace, issue.token)
    requires use.Consume? && use.token == issue.token && use.binding == issue.binding
    ensures Accepts(Run(Next(records, issue), trace), use)
       <==> use.at < issue.at + issue.ttlMs && Spares(trace, issue.token, issue.binding, issue.at + issue.ttlMs)
  {
    PresentedTokenExactly(records, issue);
    UsableExactlyWhenSpared(Next(records, issue), trace, issue.token, issue.binding, issue.at + issue.ttlMs);
    AcceptedExactlyWhen(Run(Next(records, issue), trace), use.token, use.binding, use.at);
  }
}
