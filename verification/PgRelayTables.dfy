/** The durable relay tables: what writing a snapshot leaves in them, and what a restart reads back. */
module PgRelayTables {
  import opened Domain
  import opened Relay
  import opened RelayService
  import opened RelaySafety

  /** A hops row. There is no nonce column; included_at, finalized_at and invalidated_at follow the status. */
  datatype HopRow = HopRow(
    missionId: string,
    invitationId: Option<string>,
    sequence: int,
    sender: string,
    recipient: string,
    txHash: Option<string>,
    value: Option<int>,
    status: HopStatus,
    createdAt: int,
    includedAt: Option<int>,
    finalizedAt: Option<int>,
    invalidatedAt: Option<int>)

  /** pass_intents keyed by mission, hops keyed by mission and sequence. */
  datatype Tables = Tables(passIntents: map<string, PassIntent>, hops: map<(string, int), HopRow>)

  /** SELECT id FROM invitations WHERE mission_id AND sequence LIMIT 1, used to fill a null invitation. */
  type InvitationLookup = (string, int) -> Option<string>

  const NO_TABLES := Tables(map[], map[])

  function Coalesce(a: Option<string>, b: Option<string>): Option<string> {
    if a.Some? then a else b
  }

  function IntentRow(i: PassIntent, fill: InvitationLookup): PassIntent {
    i.(invitationId := Coalesce(i.invitationId, fill(i.batonId, i.sequence)))
  }

  /** created_at keeps its first value when the row is updated. */
  function RowOf(h: Hop, rows: map<(string, int), HopRow>, fill: InvitationLookup): HopRow {
    HopRow(
      h.batonId, Coalesce(h.invitationId, fill(h.batonId, h.sequence)), h.sequence, h.currentHolder, h.recipient,
      h.txHash, h.value, h.status,
      if (h.batonId, h.sequence) in rows then rows[(h.batonId, h.sequence)].createdAt else h.createdAt,
      if h.status.INCLUDED? || h.status.FINAL? then Some(h.createdAt) else None,
      if h.status.FINAL? then Some(if h.confirmedAt.Some? then h.confirmedAt.value else h.createdAt) else None,
      if h.status.INVALID? then Some(h.createdAt) else None)
  }

  function ConfirmedMs(row: HopRow): Option<int> {
    if row.finalizedAt.Some? then row.finalizedAt else if row.includedAt.Some? then row.includedAt else row.invalidatedAt
  }

  function HopFromRow(row: HopRow): Hop {
    Hop(row.missionId, row.sequence, row.invitationId, row.sender, row.recipient, "", row.txHash, row.value, row.status,
        row.createdAt, ConfirmedMs(row))
  }

  // ---------------------------------------------------------------- writing a snapshot

  predicate IsPersistable(r: Relay, live: set<string>, b: string) {
    b in r.intents && b in live && r.intents[b].recipientData.Some?
  }

  function IntentRows(t: Tables, r: Relay, live: set<string>, fill: InvitationLookup): map<string, PassIntent> {
    map b | b in t.passIntents.Keys + r.intents.Keys && (b in t.passIntents || IsPersistable(r, live, b)) ::
      if IsPersistable(r, live, b) then IntentRow(r.intents[b], fill) else t.passIntents[b]
  }

  function HopRows(rows: map<(string, int), HopRow>, hops: seq<Hop>, live: set<string>, fill: InvitationLookup): map<(string, int), HopRow>
    decreases |hops|
  {
    if |hops| == 0 then rows
    else if hops[0].batonId !in live then HopRows(rows, hops[1..], live, fill)
    else HopRows(rows[(hops[0].batonId, hops[0].sequence) := RowOf(hops[0], rows, fill)], hops[1..], live, fill)
  }

  /** Some FINAL row of the mission is at or above the sequence, that is, sequence <= MAX(final sequence). */
  predicate IsSuperseded(rows: map<(string, int), HopRow>, b: string, sequence: int) {
    exists key | key in rows.Keys :: key.0 == b && rows[key].status.FINAL? && sequence <= key.1
  }

  function Pruned(intents: map<string, PassIntent>, rows: map<(string, int), HopRow>): map<string, PassIntent> {
    map b | b in intents && !IsSuperseded(rows, b, intents[b].sequence) :: intents[b]
  }

  function Written(t: Tables, r: Relay, live: set<string>, fill: InvitationLookup): Tables {
    var rows := HopRows(t.hops, r.hops, live, fill);
    Tables(Pruned(IntentRows(t, r, live, fill), rows), rows)
  }

  /** Upsert intents, upsert hops, then prune superseded intents row by row. */
  method WriteSnapshot(t: Tables, r: Relay, live: set<string>, fill: InvitationLookup) returns (written: Tables)
    ensures written == Written(t, r, live, fill)
  {
    var intents := UpsertIntents(t, r, live, fill);
    var rows := t.hops;
    for i := 0 to |r.hops|
      invariant HopRows(t.hops, r.hops, live, fill) == HopRows(rows, r.hops[i..], live, fill)
    {
      assert r.hops[i..][1..] == r.hops[i + 1..];
      var h := r.hops[i];
      if h.batonId in live {
        rows := rows[(h.batonId, h.sequence) := RowOf(h, rows, fill)];
      }
    }

    var kept := PruneLoop(intents, rows);
    written := Tables(kept, rows);
  }

  method UpsertIntents(t: Tables, r: Relay, live: set<string>, fill: InvitationLookup) returns (intents: map<string, PassIntent>)
    ensures intents == IntentRows(t, r, live, fill)
  {
    intents := t.passIntents;
    var todo := r.intents.Keys;
    UpsertEnds(t, r, live, fill);
    while todo != {}
      invariant todo <= r.intents.Keys
      invariant intents == IntentRowsExcept(t, r, live, fill, todo)
      decreases |todo|
    {
      var b :| b in todo;
      UpsertOne(t, r, live, fill, todo, b);
      if IsPersistable(r, live, b) {
        intents := intents[b := IntentRow(r.intents[b], fill)];
      }
      todo := todo - {b};
    }
  }

  lemma UpsertEnds(t: Tables, r: Relay, live: set<string>, fill: InvitationLookup)
    ensures IntentRowsExcept(t, r, live, fill, r.intents.Keys) == t.passIntents
    ensures IntentRowsExcept(t, r, live, fill, {}) == IntentRows(t, r, live, fill)
  {
  }

  lemma UpsertOne(t: Tables, r: Relay, live: set<string>, fill: InvitationLookup, todo: set<string>, b: string)
    requires b in todo && todo <= r.intents.Keys
    ensures IntentRowsExcept(t, r, live, fill, todo - {b})
         == if IsPersistable(r, live, b) then IntentRowsExcept(t, r, live, fill, todo)[b := IntentRow(r.intents[b], fill)]
            else IntentRowsExcept(t, r, live, fill, todo)
  {
  }

  /** The rows while the intents in todo are still to be written. */
  function IntentRowsExcept(t: Tables, r: Relay, live: set<string>, fill: InvitationLookup, todo: set<string>): map<string, PassIntent> {
    map b | b in t.passIntents.Keys + r.intents.Keys && (b in t.passIntents || (b !in todo && IsPersistable(r, live, b))) ::
      if b !in todo && IsPersistable(r, live, b) then IntentRow(r.intents[b], fill) else t.passIntents[b]
  }

  method PruneLoop(intents: map<string, PassIntent>, rows: map<(string, int), HopRow>) returns (kept: map<string, PassIntent>)
    ensures kept == Pruned(intents, rows)
  {
    kept := intents;
    var todo := intents.Keys;
    while todo != {}
      invariant todo <= intents.Keys
      invariant kept.Keys <= intents.Keys && forall b | b in kept :: kept[b] == intents[b]
      invariant forall b | b in intents :: b in kept <==> b in todo || !IsSuperseded(rows, b, intents[b].sequence)
      decreases |todo|
    {
      var b :| b in todo;
      if IsSuperseded(rows, b, intents[b].sequence) {
        kept := kept - {b};
      }
      todo := todo - {b};
    }
  }

  // ---------------------------------------------------------------- reading it back

  /** r is a hydrated load of t; holders come from the last FINAL row of each mission only. */
  ghost predicate LoadedFrom(t: Tables, r: Relay) {
    && r.intents == t.passIntents
    && SlotsUnique(r.hops)
    && (forall b, k :: GetHop(r.hops, b, k) == if (b, k) in t.hops then Some(HopFromRow(t.hops[(b, k)])) else None)
    && (forall b :: b in r.holders <==> CurrentSequence(r.hops, b) > 0)
    && (forall b | b in r.holders ::
          var last := GetHop(r.hops, b, CurrentSequence(r.hops, b)); last.Some? && r.holders[b] == last.value.recipient)
  }

  /** A reloaded hop: nonce, attempt time and, unless FINAL, confirmation time are lost; a null invitation may be filled. */
  predicate SameHop(h: Hop, g: Hop) {
    && g.batonId == h.batonId && g.sequence == h.sequence && g.currentHolder == h.currentHolder && g.recipient == h.recipient
    && g.txHash == h.txHash && g.value == h.value && g.status == h.status
    && (h.status.FINAL? && h.confirmedAt.Some? ==> g.confirmedAt == h.confirmedAt)
    && (h.invitationId.Some? ==> g.invitationId == h.invitationId)
  }

  predicate RowIsKeyed(key: (string, int), row: HopRow) {
    row.missionId == key.0 && row.sequence == key.1
  }

  /** An intent row left by an earlier snapshot of the same run: superseded, or still a possible next intent. */
  predicate IntentRowFits(r: Relay, b: string, i: PassIntent) {
    var n := CurrentSequence(r.hops, b);
    && i.batonId == b && i.currentHolder != i.recipient && i.recipientData.Some? && |i.authorizedPaymentWallets| > 0
    && 1 <= i.sequence <= n + 1
    && (i.sequence == n + 1 >= 2 ==> b in r.holders && r.holders[b] == i.currentHolder)
  }

  /** The tables hold nothing that is foreign to r's run. */
  ghost predicate Fits(t: Tables, r: Relay) {
    && (forall key | key in t.hops :: RowIsKeyed(key, t.hops[key]) && GetHop(r.hops, key.0, key.1).Some?)
    && (forall b | b in t.passIntents :: IntentRowFits(r, b, t.passIntents[b]))
  }

  /** Every intent carries a commitment and a wallet snapshot, as on the mission surface. */
  predicate IsCommitted(r: Relay) {
    forall b | b in r.intents :: r.intents[b].recipientData.Some? && |r.intents[b].authorizedPaymentWallets| > 0
  }

  /** Row by row: a live mission's slot is overwritten, every other row stays. */
  lemma {:induction false} RowsAfterWrite(rows: map<(string, int), HopRow>, hops: seq<Hop>, live: set<string>, fill: InvitationLookup, b: string, k: int)
    requires SlotsUnique(hops)
    ensures (b, k) in HopRows(rows, hops, live, fill) <==> (b, k) in rows || (b in live && GetHop(hops, b, k).Some?)
    ensures b in live && GetHop(hops, b, k).Some? ==> HopRows(rows, hops, live, fill)[(b, k)] == RowOf(GetHop(hops, b, k).value, rows, fill)
    ensures (b !in live || GetHop(hops, b, k).None?) && (b, k) in rows ==> HopRows(rows, hops, live, fill)[(b, k)] == rows[(b, k)]
    decreases |hops|
  {
    if |hops| > 0 {
      var h := hops[0];
      var more := if h.batonId in live then rows[(h.batonId, h.sequence) := RowOf(h, rows, fill)] else rows;
      TailKeepsSlots(hops);
      RowsAfterWrite(more, hops[1..], live, fill, b, k);
      assert InSlot(h, b, k) ==> GetHop(hops[1..], b, k).None? by { HeadIsAlone(hops); }
    }
  }

  lemma TailKeepsSlots(hops: seq<Hop>)
    requires |hops| > 0 && SlotsUnique(hops)
    ensures SlotsUnique(hops[1..])
  {
    forall i | 0 <= i < |hops[1..]| ensures SlotIndex(hops[1..], hops[1..][i].batonId, hops[1..][i].sequence) == i {
      assert hops[1..][i] == hops[i + 1];
      assert SlotIndex(hops, hops[i + 1].batonId, hops[i + 1].sequence) == i + 1;
    }
  }

  lemma HeadIsAlone(hops: seq<Hop>)
    requires |hops| > 0 && SlotsUnique(hops)
    ensures GetHop(hops[1..], hops[0].batonId, hops[0].sequence).None?
  {
    forall i | 0 <= i < |hops[1..]| ensures !InSlot(hops[1..][i], hops[0].batonId, hops[0].sequence) {
      assert SlotIndex(hops, hops[i + 1].batonId, hops[i + 1].sequence) == i + 1;
    }
  }

  /** Slot by slot, a load of a written snapshot is the snapshot, for every live mission. */
  lemma SlotsSurvive(t: Tables, s: Relay, live: set<string>, fill: InvitationLookup, r: Relay)
    requires SlotsUnique(s.hops) && Fits(t, s) && LoadedFrom(Written(t, s, live, fill), r)
    ensures forall b, k | b in live :: GetHop(r.hops, b, k).Some? == GetHop(s.hops, b, k).Some?
    ensures forall b, k | b in live && GetHop(s.hops, b, k).Some? :: SameHop(GetHop(s.hops, b, k).value, GetHop(r.hops, b, k).value)
    ensures forall b, k | b in live :: IsFinal(r.hops, b, k) == IsFinal(s.hops, b, k)
    ensures forall b | b in live :: CurrentSequence(r.hops, b) == CurrentSequence(s.hops, b)
  {
    forall b, k | b in live
      ensures GetHop(r.hops, b, k).Some? == GetHop(s.hops, b, k).Some?
      ensures GetHop(s.hops, b, k).Some? ==> SameHop(GetHop(s.hops, b, k).value, GetHop(r.hops, b, k).value)
    {
      RowsAfterWrite(t.hops, s.hops, live, fill, b, k);
      SlotHolds(s.hops, b, k);
    }
    assert forall b, k | b in live :: IsFinal(r.hops, b, k) == IsFinal(s.hops, b, k);
    forall b | b in live ensures CurrentSequence(r.hops, b) == CurrentSequence(s.hops, b) {
      CurrentIsHighestFinal(s.hops, b);
      CurrentIs(r.hops, b, CurrentSequence(s.hops, b));
    }
  }

  /** Superseded means at or below the last FINAL sequence. */
  lemma SupersededIsBelowFinal(t: Tables, s: Relay, live: set<string>, fill: InvitationLookup, b: string, sequence: int)
    requires Inv(s) && Fits(t, s) && b in live
    ensures IsSuperseded(Written(t, s, live, fill).hops, b, sequence)
       <==> CurrentSequence(s.hops, b) >= 1 && sequence <= CurrentSequence(s.hops, b)
  {
    var rows := Written(t, s, live, fill).hops;
    var n := CurrentSequence(s.hops, b);
    CurrentIsHighestFinal(s.hops, b);
    RowsAfterWrite(t.hops, s.hops, live, fill, b, n);
    if IsSuperseded(rows, b, sequence) {
      var key :| key in rows.Keys && key.0 == b && rows[key].status.FINAL? && sequence <= key.1;
      RowsAfterWrite(t.hops, s.hops, live, fill, key.0, key.1);
      assert IsFinal(s.hops, b, key.1);
    }
    if n >= 1 && sequence <= n {
      assert (b, n) in rows.Keys && rows[(b, n)].status.FINAL?;
    }
  }

  /** The relay invariant, for the given missions. */
  ghost predicate InvFor(r: Relay, live: set<string>) {
    && SlotsUnique(r.hops)
    && (forall b, k | b in live && IsFinal(r.hops, b, k) :: k >= 1 && IsComplete(GetHop(r.hops, b, k).value))
    && (forall b, k | b in live && 1 <= k <= CurrentSequence(r.hops, b) :: IsFinal(r.hops, b, k))
    && (forall b, j, k | b in live && IsFinal(r.hops, b, j) && IsFinal(r.hops, b, k) && k == j + 1 ::
          GetHop(r.hops, b, j).value.recipient == GetHop(r.hops, b, k).value.currentHolder)
    && (forall b, k, c, l | b in live && c in live && ShareHash(GetHop(r.hops, b, k), GetHop(r.hops, c, l)) :: b == c && k == l)
    && (forall b | b in live && b in r.intents :: IsNext(r, b, r.intents[b]))
    && (forall b | b in live :: HolderFollows(r, b))
    && (forall b, k | b in live && GetHop(r.hops, b, k).Some? :: SlotInRange(r, GetHop(r.hops, b, k).value))
  }

  /** What a restart finds of the given missions after snapshot s was written. */
  ghost predicate SurvivesFor(s: Relay, r: Relay, live: set<string>) {
    && InvFor(r, live)
    && (forall b, k | b in live :: GetHop(r.hops, b, k).Some? == GetHop(s.hops, b, k).Some?)
    && (forall b, k | b in live && GetHop(s.hops, b, k).Some? :: SameHop(GetHop(s.hops, b, k).value, GetHop(r.hops, b, k).value))
    && (forall b | b in live :: CurrentSequence(r.hops, b) == CurrentSequence(s.hops, b))
    && (forall b | b in live && CurrentSequence(s.hops, b) >= 1 :: b in r.holders && b in s.holders && r.holders[b] == s.holders[b])
    && (forall b | b in live && b in s.intents ::
          b in r.intents && r.intents[b] == s.intents[b].(invitationId := r.intents[b].invitationId)
          && (s.intents[b].invitationId.Some? ==> r.intents[b].invitationId == s.intents[b].invitationId))
    && (forall b | b in live && b in r.intents :: r.intents[b].sequence > CurrentSequence(r.hops, b))
  }

  /**
   * Writing a valid snapshot over tables of the same run and reloading gives every live mission, whatever else the
   * snapshot still mentions, a valid relay with the same hops, current sequence and delivered holder, its open committed
   * intent, and no intent at or below its last FINAL sequence.
   */
  lemma WriteThenLoad(t: Tables, s: Relay, live: set<string>, fill: InvitationLookup, r: Relay)
    requires Inv(s) && Fits(t, s) && IsCommitted(s)
    requires LoadedFrom(Written(t, s, live, fill), r)
    ensures SurvivesFor(s, r, live)
  {
    SlotsSurvive(t, s, live, fill, r);
    LoadedHolders(s, r, live);
    LoadedSlotsAreValid(s, r, live);
    LoadedIntentsAreNext(t, s, live, fill, r);
    OpenIntentsSurvive(t, s, live, fill);
  }

  lemma LoadedHolders(s: Relay, r: Relay, live: set<string>)
    requires Inv(s) && SlotsUnique(r.hops)
    requires forall b, k | b in live && GetHop(s.hops, b, k).Some? ::
               GetHop(r.hops, b, k).Some? && SameHop(GetHop(s.hops, b, k).value, GetHop(r.hops, b, k).value)
    requires forall b | b in live :: CurrentSequence(r.hops, b) == CurrentSequence(s.hops, b)
    requires forall b :: b in r.holders <==> CurrentSequence(r.hops, b) > 0
    requires forall b | b in r.holders ::
               var last := GetHop(r.hops, b, CurrentSequence(r.hops, b)); last.Some? && r.holders[b] == last.value.recipient
    ensures forall b :: HolderFollows(r, b)
    ensures forall b | b in live && CurrentSequence(s.hops, b) >= 1 :: b in r.holders && b in s.holders && r.holders[b] == s.holders[b]
  {
    forall b ensures HolderFollows(r, b) {
      CurrentIsHighestFinal(r.hops, b);
    }
    forall b | b in live && CurrentSequence(s.hops, b) >= 1 ensures b in r.holders && b in s.holders && r.holders[b] == s.holders[b] {
      assert HolderFollows(s, b) && HolderFollows(r, b);
    }
  }

  lemma LoadedIntentsAreNext(t: Tables, s: Relay, live: set<string>, fill: InvitationLookup, r: Relay)
    requires Inv(s) && Fits(t, s) && IsCommitted(s)
    requires r.intents == Written(t, s, live, fill).passIntents
    requires forall b | b in live :: CurrentSequence(r.hops, b) == CurrentSequence(s.hops, b)
    requires forall b :: b in r.holders <==> CurrentSequence(r.hops, b) > 0
    requires forall b | b in live && CurrentSequence(s.hops, b) >= 1 :: b in r.holders && b in s.holders && r.holders[b] == s.holders[b]
    ensures forall b | b in live && b in r.intents :: IsNext(r, b, r.intents[b])
  {
    forall b | b in live && b in r.intents ensures IsNext(r, b, r.intents[b]) {
      SupersededIsBelowFinal(t, s, live, fill, b, r.intents[b].sequence);
      CurrentIsHighestFinal(s.hops, b);
      if b in s.intents {
        assert IsNext(s, b, s.intents[b]);
      } else {
        assert IntentRowFits(s, b, t.passIntents[b]);
      }
    }
  }

  lemma OpenIntentsSurvive(t: Tables, s: Relay, live: set<string>, fill: InvitationLookup)
    requires Inv(s) && Fits(t, s) && IsCommitted(s)
    ensures forall b | b in live && b in s.intents ::
              b in Written(t, s, live, fill).passIntents && Written(t, s, live, fill).passIntents[b] == IntentRow(s.intents[b], fill)
  {
    forall b | b in live && b in s.intents
      ensures b in Written(t, s, live, fill).passIntents && Written(t, s, live, fill).passIntents[b] == IntentRow(s.intents[b], fill)
    {
      assert IsNext(s, b, s.intents[b]);
      SupersededIsBelowFinal(t, s, live, fill, b, s.intents[b].sequence);
      CurrentIsHighestFinal(s.hops, b);
    }
  }

  lemma LoadedSlotsAreValid(s: Relay, r: Relay, live: set<string>)
    requires Inv(s) && SlotsUnique(r.hops)
    requires forall b, k | b in live :: GetHop(r.hops, b, k).Some? == GetHop(s.hops, b, k).Some?
    requires forall b, k | b in live && GetHop(s.hops, b, k).Some? :: SameHop(GetHop(s.hops, b, k).value, GetHop(r.hops, b, k).value)
    requires forall b, k | b in live :: IsFinal(r.hops, b, k) == IsFinal(s.hops, b, k)
    requires forall b | b in live :: CurrentSequence(r.hops, b) == CurrentSequence(s.hops, b)
    requires forall b | b in live && CurrentSequence(s.hops, b) >= 1 :: b in r.holders && b in s.holders && r.holders[b] == s.holders[b]
    ensures forall b, k, c, l | b in live && c in live && ShareHash(GetHop(r.hops, b, k), GetHop(r.hops, c, l)) :: b == c && k == l
    ensures forall b, k | b in live && GetHop(r.hops, b, k).Some? :: SlotInRange(r, GetHop(r.hops, b, k).value)
  {
    forall b, k, c, l | b in live && c in live && ShareHash(GetHop(r.hops, b, k), GetHop(r.hops, c, l)) ensures b == c && k == l {
      assert ShareHash(GetHop(s.hops, b, k), GetHop(s.hops, c, l));
    }
    forall b, k | b in live && GetHop(r.hops, b, k).Some? ensures SlotInRange(r, GetHop(r.hops, b, k).value) {
      assert SlotInRange(s, GetHop(s.hops, b, k).value);
      SlotHolds(s.hops, b, k);
      SlotHolds(r.hops, b, k);
    }
  }

  // ---------------------------------------------------------------- exactly what comes back

  /** The time the tables keep for the hop's status: only a FINAL one keeps its own, a PENDING one has none. */
  function KeptTime(h: Hop): Option<int> {
    match h.status
    case FINAL => Some(if h.confirmedAt.Some? then h.confirmedAt.value else h.createdAt)
    case INCLUDED => Some(h.createdAt)
    case INVALID => Some(h.createdAt)
    case _ => None
  }

  /**
   * A written hop comes back without its nonce, with a null invitation filled, dated as when its slot was first written and
   * with the time its status keeps; a slot that was not written comes back as it would have before.
   */
  lemma HopsReloadedExactly(t: Tables, s: Relay, live: set<string>, fill: InvitationLookup, r: Relay, b: string, k: int)
    requires SlotsUnique(s.hops) && LoadedFrom(Written(t, s, live, fill), r)
    ensures var hop := GetHop(s.hops, b, k);
            if b in live && hop.Some? then
              GetHop(r.hops, b, k) == Some(hop.value.(
                nonce := "", invitationId := if hop.value.invitationId.Some? then hop.value.invitationId else fill(b, k),
                createdAt := if (b, k) in t.hops then t.hops[(b, k)].createdAt else hop.value.createdAt, confirmedAt := KeptTime(hop.value)))
            else forall r0 | LoadedFrom(t, r0) :: GetHop(r.hops, b, k) == GetHop(r0.hops, b, k)
  {
    RowsAfterWrite(t.hops, s.hops, live, fill, b, k);
    SlotHolds(s.hops, b, k);
  }

  /** A hop that has been through a restart only loses more in another if it was not FINAL: the time it was included or refused. */
  lemma AnotherReloadKeeps(t: Tables, s: Relay, live: set<string>, fill: InvitationLookup, r: Relay, b: string, k: int)
    requires SlotsUnique(s.hops) && LoadedFrom(t, s) && LoadedFrom(Written(t, s, live, fill), r) && GetHop(s.hops, b, k).Some?
    requires (b, k) in t.hops ==> (t.hops[(b, k)].finalizedAt.Some? <==> t.hops[(b, k)].status.FINAL?)
    requires GetHop(s.hops, b, k).value.invitationId.None? ==> fill(b, k).None?
    ensures GetHop(r.hops, b, k).Some?
    ensures var h, g := GetHop(s.hops, b, k).value, GetHop(r.hops, b, k).value;
            g.(confirmedAt := h.confirmedAt) == h && (h.status.FINAL? ==> g == h)
  {
    HopsReloadedExactly(t, s, live, fill, r, b, k);
  }

  /**
   * An intent is open after a restart exactly when the snapshot had it, or a row of an earlier snapshot is above the last
   * FINAL sequence: closing an intent does not delete its row, so one closed without a FINAL hop comes back.
   */
  lemma IntentsReloadedExactly(t: Tables, s: Relay, live: set<string>, fill: InvitationLookup, r: Relay, b: string)
    requires Inv(s) && Fits(t, s) && IsCommitted(s) && LoadedFrom(Written(t, s, live, fill), r) && b in live
    ensures b in r.intents <==> b in s.intents || (b in t.passIntents && t.passIntents[b].sequence == CurrentSequence(s.hops, b) + 1)
    ensures b in r.intents ==>
              r.intents[b] == if b in s.intents
                              then s.intents[b].(invitationId := Coalesce(s.intents[b].invitationId, fill(b, s.intents[b].sequence)))
                              else t.passIntents[b]
  {
    CurrentIsHighestFinal(s.hops, b);
    if b in s.intents {
      OpenIntentsSurvive(t, s, live, fill);
      assert IsNext(s, b, s.intents[b]);
    } else if b in t.passIntents {
      assert IntentRowFits(s, b, t.passIntents[b]);
      SupersededIsBelowFinal(t, s, live, fill, b, t.passIntents[b].sequence);
    }
  }

  // ---------------------------------------------------------------- when every mission is live

  /** What a restart finds after snapshot s was written and every mission it mentions still exists. */
  ghost predicate SurvivesReload(s: Relay, r: Relay) {
    && Inv(r)
    && (forall b, k :: GetHop(r.hops, b, k).Some? == GetHop(s.hops, b, k).Some?)
    && (forall b, k | GetHop(s.hops, b, k).Some? :: SameHop(GetHop(s.hops, b, k).value, GetHop(r.hops, b, k).value))
    && (forall b :: CurrentSequence(r.hops, b) == CurrentSequence(s.hops, b))
    && (forall b | CurrentSequence(s.hops, b) >= 1 :: b in r.holders && b in s.holders && r.holders[b] == s.holders[b])
    && (forall b | b in s.intents ::
          b in r.intents && r.intents[b] == s.intents[b].(invitationId := r.intents[b].invitationId)
          && (s.intents[b].invitationId.Some? ==> r.intents[b].invitationId == s.intents[b].invitationId))
    && (forall b | b in r.intents :: r.intents[b].sequence > CurrentSequence(r.hops, b))
  }

  /** Every mission the relay mentions is among the given ones. */
  ghost predicate MentionsOnly(r: Relay, live: set<string>) {
    (forall b | b in r.intents :: b in live) && (forall b, k | GetHop(r.hops, b, k).Some? :: b in live)
  }

  lemma NothingIsFinalOutside(r: Relay, live: set<string>, b: string)
    requires SlotsUnique(r.hops) && MentionsOnly(r, live) && b !in live
    ensures CurrentSequence(r.hops, b) == 0 && HolderFollows(r, b)
  {
    CurrentIs(r.hops, b, 0);
  }

  lemma ChainsOfAllAreTheChain(r: Relay, live: set<string>)
    requires InvFor(r, live) && MentionsOnly(r, live)
    ensures CustodyChain(r.hops) && HashesUnique(r.hops)
  {
    forall b, k | 1 <= k <= CurrentSequence(r.hops, b) ensures IsFinal(r.hops, b, k) {
      if b !in live { NothingIsFinalOutside(r, live, b); }
    }
    forall b, k | IsFinal(r.hops, b, k) ensures b in live { assert GetHop(r.hops, b, k).Some?; }
    forall b, k, c, l | ShareHash(GetHop(r.hops, b, k), GetHop(r.hops, c, l)) ensures b == c && k == l {
      assert b in live && c in live;
    }
  }

  lemma InvForAllIsInv(r: Relay, live: set<string>)
    requires InvFor(r, live) && MentionsOnly(r, live)
    ensures Inv(r)
  {
    ChainsOfAllAreTheChain(r, live);
    forall b ensures HolderFollows(r, b) {
      if b !in live { NothingIsFinalOutside(r, live, b); }
    }
    forall b | b in r.intents ensures IsNext(r, b, r.intents[b]) { assert b in live; }
    forall b, k | GetHop(r.hops, b, k).Some? ensures SlotInRange(r, GetHop(r.hops, b, k).value) { assert b in live; }
  }

  lemma SurvivesForAll(s: Relay, r: Relay, live: set<string>)
    requires SurvivesFor(s, r, live) && SlotsUnique(s.hops) && MentionsOnly(s, live) && MentionsOnly(r, live)
    ensures SurvivesReload(s, r)
  {
    InvForAllIsInv(r, live);
    forall b ensures CurrentSequence(r.hops, b) == CurrentSequence(s.hops, b) && (CurrentSequence(s.hops, b) >= 1 ==> b in live) {
      if b !in live {
        NothingIsFinalOutside(s, live, b);
        NothingIsFinalOutside(r, live, b);
      }
    }
  }

  /** A load fits its own tables, and tables that fit keep fitting every later snapshot and every write of one. */
  lemma LoadFits(t: Tables, r: Relay)
    requires LoadedFrom(t, r) && Inv(r) && IsCommitted(r)
    requires forall key | key in t.hops :: RowIsKeyed(key, t.hops[key])
    ensures Fits(t, r)
  {
    forall b | b in t.passIntents ensures IntentRowFits(r, b, t.passIntents[b]) {
      assert IsNext(r, b, r.intents[b]) && HolderFollows(r, b);
      CurrentIsHighestFinal(r.hops, b);
    }
    forall key | key in t.hops ensures GetHop(r.hops, key.0, key.1).Some? {
      assert key == (key.0, key.1);
    }
  }

  lemma SequencesAgree(t: Tables, a: Relay, b: Relay)
    requires LoadedFrom(t, a) && LoadedFrom(t, b) && SlotsUnique(a.hops) && SlotsUnique(b.hops)
    ensures forall c :: CurrentSequence(a.hops, c) == CurrentSequence(b.hops, c) >= 0
  {
    assert forall c, k :: IsFinal(a.hops, c, k) == IsFinal(b.hops, c, k);
    forall c ensures CurrentSequence(a.hops, c) == CurrentSequence(b.hops, c) >= 0 {
      CurrentIsHighestFinal(b.hops, c);
      CurrentIs(a.hops, c, CurrentSequence(b.hops, c));
    }
  }

  /** Two loads of the same tables agree. */
  lemma LoadsAgree(t: Tables, a: Relay, b: Relay)
    requires LoadedFrom(t, a) && LoadedFrom(t, b) && Inv(a) && Inv(b)
    ensures SurvivesReload(a, b)
  {
    SequencesAgree(t, a, b);
    HoldersAgree(t, a, b);
    forall c | c in b.intents ensures b.intents[c].sequence > CurrentSequence(b.hops, c) {
      assert IsNext(b, c, b.intents[c]);
    }
  }

  lemma HoldersAgree(t: Tables, a: Relay, b: Relay)
    requires LoadedFrom(t, a) && LoadedFrom(t, b) && Inv(a) && Inv(b)
    ensures forall c | CurrentSequence(a.hops, c) >= 1 :: c in b.holders && c in a.holders && b.holders[c] == a.holders[c]
  {
    SequencesAgree(t, a, b);
    forall c | CurrentSequence(a.hops, c) >= 1 ensures c in b.holders && c in a.holders && b.holders[c] == a.holders[c] {
      assert HolderFollows(a, c) && HolderFollows(b, c);
    }
  }

  lemma LoadHops(rows: map<(string, int), HopRow>) returns (hops: seq<Hop>)
    requires forall key | key in rows :: RowIsKeyed(key, rows[key])
    ensures SlotsUnique(hops)
    ensures forall b, k :: GetHop(hops, b, k) == if (b, k) in rows then Some(HopFromRow(rows[(b, k)])) else None
    decreases |rows|
  {
    if rows == map[] {
      hops := [];
    } else {
      var key :| key in rows;
      var rest := LoadHops(rows - {key});
      var h := HopFromRow(rows[key]);
      hops := PutHop(rest, h);
      PutKeepsSlots(rest, h);
      forall b, k ensures GetHop(hops, b, k) == if (b, k) in rows then Some(HopFromRow(rows[(b, k)])) else None {
        PutThenGet(rest, h, b, k);
        assert InSlot(h, b, k) <==> (b, k) == key;
      }
    }
  }

  /** Tables keyed by their own rows can always be loaded. */
  lemma LoadExists(t: Tables) returns (r: Relay)
    requires forall key | key in t.hops :: RowIsKeyed(key, t.hops[key])
    ensures LoadedFrom(t, r)
  {
    var hops := LoadHops(t.hops);
    forall b | CurrentSequence(hops, b) > 0
      ensures GetHop(hops, b, CurrentSequence(hops, b)).Some? && exists i :: 0 <= i < |hops| && hops[i].batonId == b
    {
      CurrentIsHighestFinal(hops, b);
      assert hops[SlotIndex(hops, b, CurrentSequence(hops, b))].batonId == b;
    }
    var holders := map i | 0 <= i < |hops| && CurrentSequence(hops, hops[i].batonId) > 0 ::
      hops[i].batonId := GetHop(hops, hops[i].batonId, CurrentSequence(hops, hops[i].batonId)).value.recipient;
    r := Relay(t.passIntents, hops, holders);
  }

  /** b comes no earlier than a in one run: slots stay, FINAL hops stay as they are. */
  ghost predicate Later(a: Relay, b: Relay) {
    && (forall c, k | GetHop(a.hops, c, k).Some? :: GetHop(b.hops, c, k).Some?)
    && (forall c, k | IsFinal(a.hops, c, k) :: GetHop(b.hops, c, k) == GetHop(a.hops, c, k))
  }

  lemma FitsLater(t: Tables, a: Relay, b: Relay)
    requires Inv(a) && Inv(b) && Fits(t, a) && Later(a, b)
    ensures Fits(t, b)
  {
    forall c | c in t.passIntents ensures IntentRowFits(b, c, t.passIntents[c]) {
      assert IntentRowFits(a, c, t.passIntents[c]) && HolderFollows(a, c) && HolderFollows(b, c);
      CurrentIsHighestFinal(a.hops, c);
      CurrentIsHighestFinal(b.hops, c);
      var n := CurrentSequence(a.hops, c);
      assert n >= 1 ==> IsFinal(b.hops, c, n);
    }
  }

  lemma WrittenFits(t: Tables, s: Relay, live: set<string>, fill: InvitationLookup)
    requires Inv(s) && Fits(t, s) && IsCommitted(s)
    ensures Fits(Written(t, s, live, fill), s)
  {
    var w := Written(t, s, live, fill);
    forall b | b in w.passIntents ensures IntentRowFits(s, b, w.passIntents[b]) {
      if b in s.intents && b in live {
        assert IsNext(s, b, s.intents[b]) && HolderFollows(s, b);
        CurrentIsHighestFinal(s.hops, b);
      } else {
        assert IntentRowFits(s, b, t.passIntents[b]);
      }
    }
    forall key | key in w.hops ensures RowIsKeyed(key, w.hops[key]) && GetHop(s.hops, key.0, key.1).Some? {
      RowsAfterWrite(t.hops, s.hops, live, fill, key.0, key.1);
      assert key == (key.0, key.1);
      SlotHolds(s.hops, key.0, key.1);
      if key in t.hops { assert GetHop(s.hops, key.0, key.1).Some?; }
    }
  }

  /** The intent row of a mission that no longer exists is not written; it only goes when a FINAL row supersedes it. */
  lemma OrphanIntentsAreSkipped(t: Tables, s: Relay, live: set<string>, fill: InvitationLookup, b: string)
    requires b !in live
    ensures var w := Written(t, s, live, fill);
            && (b in w.passIntents <==> b in t.passIntents && !IsSuperseded(w.hops, b, t.passIntents[b].sequence))
            && (b in w.passIntents ==> w.passIntents[b] == t.passIntents[b])
  {
  }

  /** A hop row of a mission that no longer exists is neither written nor changed. */
  lemma {:induction false} OrphansAreSkipped(rows: map<(string, int), HopRow>, hops: seq<Hop>, live: set<string>, fill: InvitationLookup, key: (string, int))
    requires key.0 !in live
    ensures key in HopRows(rows, hops, live, fill) <==> key in rows
    ensures key in rows ==> HopRows(rows, hops, live, fill)[key] == rows[key]
    decreases |hops|
  {
    if |hops| > 0 {
      var more := if hops[0].batonId in live then rows[(hops[0].batonId, hops[0].sequence) := RowOf(hops[0], rows, fill)] else rows;
      OrphansAreSkipped(more, hops[1..], live, fill, key);
    }
  }
}
