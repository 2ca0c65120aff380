/** Durable record codecs (src/durable/records.cpp). */
module Records {
  import opened Base
  import opened Model
  import opened Bytes

  const MAX_STRING_BYTES := 96

  datatype Parse<T> = Parsed(value: T, rest: seq<byte>) | Rejected(status: Status)

  // ------------------------------------------------------------------
  // Enumerations and scalars
  // ------------------------------------------------------------------

  function OutcomeCode(o: Outcome): nat {
    match o
    case Admit => 0
    case AdmitDegraded => 1
    case Defer => 2
    case RejectCapacity => 3
    case RejectPolicy => 4
    case RejectObligation => 5
    case RejectPath => 6
    case RejectQoS => 7
    case StaleInput => 8
    case ConflictingInput => 9
    case FencedClaimant => 10
  }

  function OutcomeFrom(c: nat): Outcome {
    if c == 0 then Admit else if c == 1 then AdmitDegraded else if c == 2 then Defer
    else if c == 3 then RejectCapacity else if c == 4 then RejectPolicy else if c == 5 then RejectObligation
    else if c == 6 then RejectPath else if c == 7 then RejectQoS else if c == 8 then StaleInput
    else if c == 9 then ConflictingInput else FencedClaimant
  }

  function StateCode(s: RevalidationState): nat {
    match s
    case Fresh => 0
    case Valid => 1
    case Invalidated => 2
    case Revoked => 3
    case Expired => 4
    case Ambiguous => 5
    case StateUnknown => 6
  }

  function StateFrom(c: nat): RevalidationState {
    if c == 0 then Fresh else if c == 1 then Valid else if c == 2 then Invalidated
    else if c == 3 then Revoked else if c == 4 then Expired else if c == 5 then Ambiguous else StateUnknown
  }

  function ReasonCode(r: RevocationReason): nat {
    match r
    case NotRevoked => 0
    case OperatorRequest => 1
    case GenerationAdvance => 2
    case CapacityReduction => 3
    case PathRevoked => 4
    case PolicyChange => 5
    case ClaimantDeath => 6
    case CoordinatorRestart => 7
    case ObligationChange => 8
    case ReasonExpired => 9
  }

  function ReasonFrom(c: nat): RevocationReason {
    if c == 0 then NotRevoked else if c == 1 then OperatorRequest else if c == 2 then GenerationAdvance
    else if c == 3 then CapacityReduction else if c == 4 then PathRevoked else if c == 5 then PolicyChange
    else if c == 6 then ClaimantDeath else if c == 7 then CoordinatorRestart else if c == 8 then ObligationChange
    else ReasonExpired
  }

  lemma OutcomeBack(c: nat)
    requires c <= 10
    ensures OutcomeCode(OutcomeFrom(c)) == c
  {}

  lemma StateRound(s: RevalidationState)
    ensures StateCode(s) <= 6 && StateFrom(StateCode(s)) == s
  {}

  lemma StateBack(c: nat)
    requires c <= 6
    ensures StateCode(StateFrom(c)) == c
  {}

  lemma ReasonRound(r: RevocationReason)
    ensures ReasonCode(r) <= 9 && ReasonFrom(ReasonCode(r)) == r
  {}

  lemma ReasonBack(c: nat)
    requires c <= 9
    ensures ReasonCode(ReasonFrom(c)) == c
  {}

  function Bit(b: bool): nat {
    if b then 1 else 0
  }

  /** A value read from an eight-byte field always fits. */
  function Word(v: nat): u64 {
    if v <= MAX64 then v else 0
  }

  /** Eight-byte fields hold machine words. */
  lemma WordsFit(vs: seq<nat>, ws: seq<nat>)
    requires Fits(vs, ws)
    ensures forall i :: 0 <= i < |vs| && ws[i] == 8 ==> vs[i] <= MAX64
  {
    Widths();
  }

  // ------------------------------------------------------------------
  // Prepare
  // ------------------------------------------------------------------

  const PREPARE_HEADER: seq<nat> := [8, 8, 8, 8, 8, 8, 8, 4]
  const AMOUNT: seq<nat> := [8, 8]

  function AmountFields(a: Amount): seq<nat> {
    [a.resource, a.rate]
  }

  function AmountFrom(g: seq<nat>): Amount
    requires |g| == 2
  {
    Amount(Word(g[0]), Word(g[1]))
  }

  function AmountGroups(amounts: seq<Amount>): (gs: seq<seq<nat>>)
    ensures |gs| == |amounts| && forall i :: 0 <= i < |gs| ==> gs[i] == AmountFields(amounts[i])
  {
    seq(|amounts|, i requires 0 <= i < |amounts| => AmountFields(amounts[i]))
  }

  function AmountsFrom(gs: seq<seq<nat>>): (a: seq<Amount>)
    requires forall i :: 0 <= i < |gs| ==> |gs[i]| == 2
    ensures |a| == |gs| && forall i :: 0 <= i < |a| ==> a[i] == AmountFrom(gs[i])
  {
    seq(|gs|, i requires 0 <= i < |gs| => AmountFrom(gs[i]))
  }

  function PrepareFields(p: PrepareRecord): seq<nat> {
    [p.decision, p.demand, p.attempt, p.fingerprint, p.epoch, p.boundCapacity, p.path, |p.amounts|]
  }

  function PrepareBytes(p: PrepareRecord): seq<byte> {
    FieldsBytes(PrepareFields(p), PREPARE_HEADER) + GroupsBytes(AmountGroups(p.amounts), AMOUNT)
  }

  function PrepareFrom(vs: seq<nat>, gs: seq<seq<nat>>): PrepareRecord
    requires |vs| == 8 && forall i :: 0 <= i < |gs| ==> |gs[i]| == 2
  {
    PrepareRecord(vs[0], Word(vs[1]), Word(vs[2]), Word(vs[3]), Word(vs[4]), Word(vs[5]), Word(vs[6]), AmountsFrom(gs))
  }

  function ParsePrepare(bs: seq<byte>): Parse<PrepareRecord> {
    match TakeFields(bs, PREPARE_HEADER)
    case Short => Rejected(MalformedInput)
    case Taken(vs, rest) =>
      if vs[7] > MAX_RESOURCE_BINDINGS then Rejected(OversizedInput)
      else
        match TakeGroups(rest, AMOUNT, vs[7])
        case Short => Rejected(MalformedInput)
        case Taken(gs, rest') => Parsed(PrepareFrom(vs, gs), rest')
  }

  predicate PrepareBounded(p: PrepareRecord) {
    p.decision <= MAX64 && |p.amounts| <= MAX_RESOURCE_BINDINGS
  }

  lemma PrepareFits(p: PrepareRecord)
    requires PrepareBounded(p)
    ensures Fits(PrepareFields(p), PREPARE_HEADER)
  {
    Widths();
  }

  lemma AmountsFit(amounts: seq<Amount>)
    ensures GroupsFit(AmountGroups(amounts), AMOUNT) && AmountsFrom(AmountGroups(amounts)) == amounts
  {
    Widths();
    var gs := AmountGroups(amounts);
    forall i | 0 <= i < |gs| ensures Fits(gs[i], AMOUNT) {}
  }

  lemma GroupsAreAmounts(gs: seq<seq<nat>>)
    requires GroupsFit(gs, AMOUNT)
    ensures AmountGroups(AmountsFrom(gs)) == gs
  {
    Widths();
    var back := AmountGroups(AmountsFrom(gs));
    forall i | 0 <= i < |gs| ensures back[i] == gs[i] {
      assert Fits(gs[i], AMOUNT);
      assert gs[i][0] < Pow256(AMOUNT[0]) && gs[i][1] < Pow256(AMOUNT[1]);
      assert gs[i] == [gs[i][0], gs[i][1]];
    }
  }

  lemma PrepareParses(p: PrepareRecord, rest: seq<byte>)
    requires PrepareBounded(p)
    ensures ParsePrepare(PrepareBytes(p) + rest) == Parsed(p, rest)
  {
    PrepareFits(p);
    AmountsFit(p.amounts);
    var tail := GroupsBytes(AmountGroups(p.amounts), AMOUNT);
    TakeFieldsBytes(PrepareFields(p), PREPARE_HEADER, tail + rest);
    TakeGroupsBytes(AmountGroups(p.amounts), AMOUNT, rest);
    Regroup(FieldsBytes(PrepareFields(p), PREPARE_HEADER), tail, rest);
  }

  lemma HeaderBack(vs: seq<nat>, gs: seq<seq<nat>>)
    requires Fits(vs, PREPARE_HEADER) && GroupsFit(gs, AMOUNT) && |gs| == vs[7]
    ensures PrepareFields(PrepareFrom(vs, gs)) == vs && vs[0] <= MAX64
  {
    Widths();
    assert forall i :: 0 <= i < 7 ==> PREPARE_HEADER[i] == 8;
    assert forall i :: 0 <= i < 7 ==> vs[i] < Pow256(PREPARE_HEADER[i]);
  }

  lemma ParsedPrepare(bs: seq<byte>)
    requires ParsePrepare(bs).Parsed?
    ensures
      var r := ParsePrepare(bs);
      PrepareBounded(r.value) && bs == PrepareBytes(r.value) + r.rest
  {
    var h := TakeFields(bs, PREPARE_HEADER);
    FieldsBytesTaken(bs, PREPARE_HEADER);
    var g := TakeGroups(h.rest, AMOUNT, h.value[7]);
    GroupsBytesTaken(h.rest, AMOUNT, h.value[7]);
    HeaderBack(h.value, g.value);
    GroupsAreAmounts(g.value);
  }

  // ------------------------------------------------------------------
  // Release
  // ------------------------------------------------------------------

  const RELEASE_HEADER: seq<nat> := [8, 8, 1, 4]
  const ENTRY: seq<nat> := [8, 8, 8, 8, 8, 8, 8, 1]

  function EntryFields(e: LedgerEntry): seq<nat> {
    [e.decision, e.demand, e.resource, e.amount, e.path, e.epoch, e.boundCapacity, Bit(e.requiresRevalidation)]
  }

  function EntryFrom(g: seq<nat>): LedgerEntry
    requires |g| == 8
  {
    LedgerEntry(g[0], Word(g[1]), Word(g[2]), Word(g[3]), Word(g[4]), Word(g[5]), Word(g[6]), g[7] == 1)
  }

  function EntryGroups(entries: seq<LedgerEntry>): (gs: seq<seq<nat>>)
    ensures |gs| == |entries| && forall i :: 0 <= i < |gs| ==> gs[i] == EntryFields(entries[i])
  {
    seq(|entries|, i requires 0 <= i < |entries| => EntryFields(entries[i]))
  }

  function EntriesFrom(gs: seq<seq<nat>>): (es: seq<LedgerEntry>)
    requires forall i :: 0 <= i < |gs| ==> |gs[i]| == 8
    ensures |es| == |gs| && forall i :: 0 <= i < |es| ==> es[i] == EntryFrom(gs[i])
  {
    seq(|gs|, i requires 0 <= i < |gs| => EntryFrom(gs[i]))
  }

  function ReleaseFields(r: ReleaseRecord): seq<nat> {
    [r.decision, r.epoch, ReasonCode(r.reason), |r.released|]
  }

  function ReleaseBytes(r: ReleaseRecord): seq<byte> {
    FieldsBytes(ReleaseFields(r), RELEASE_HEADER) + GroupsBytes(EntryGroups(r.released), ENTRY)
  }

  function ReleaseFrom(vs: seq<nat>, gs: seq<seq<nat>>): ReleaseRecord
    requires |vs| == 4 && forall i :: 0 <= i < |gs| ==> |gs[i]| == 8
  {
    ReleaseRecord(vs[0], Word(vs[1]), ReasonFrom(vs[2]), EntriesFrom(gs))
  }

  /** Every entry's flag byte is zero or one. */
  predicate FlagsClean(gs: seq<seq<nat>>)
    requires forall i :: 0 <= i < |gs| ==> |gs[i]| == 8
  {
    forall i :: 0 <= i < |gs| ==> gs[i][7] <= 1
  }

  function ParseRelease(bs: seq<byte>): Parse<ReleaseRecord> {
    match TakeFields(bs, RELEASE_HEADER)
    case Short => Rejected(MalformedInput)
    case Taken(vs, rest) =>
      if vs[2] > 9 then Rejected(MalformedInput)
      else if vs[3] > MAX_RESOURCE_BINDINGS then Rejected(OversizedInput)
      else
        match TakeGroups(rest, ENTRY, vs[3])
        case Short => Rejected(MalformedInput)
        case Taken(gs, rest') => if FlagsClean(gs) then Parsed(ReleaseFrom(vs, gs), rest') else Rejected(MalformedInput)
  }

  predicate ReleaseBounded(r: ReleaseRecord) {
    r.decision <= MAX64 && |r.released| <= MAX_RESOURCE_BINDINGS && forall i :: 0 <= i < |r.released| ==> r.released[i].decision <= MAX64
  }

  lemma ReleaseFits(r: ReleaseRecord)
    requires ReleaseBounded(r)
    ensures Fits(ReleaseFields(r), RELEASE_HEADER)
  {
    Widths();
  }

  lemma EntryBack(e: LedgerEntry)
    requires e.decision <= MAX64
    ensures Fits(EntryFields(e), ENTRY) && EntryFrom(EntryFields(e)) == e
  {
    Widths();
  }

  lemma EntriesFit(entries: seq<LedgerEntry>)
    requires forall i :: 0 <= i < |entries| ==> entries[i].decision <= MAX64
    ensures
      var gs := EntryGroups(entries);
      GroupsFit(gs, ENTRY) && FlagsClean(gs) && EntriesFrom(gs) == entries
  {
    var gs := EntryGroups(entries);
    forall i | 0 <= i < |gs| ensures Fits(gs[i], ENTRY) && gs[i][7] <= 1 && EntryFrom(gs[i]) == entries[i] {
      EntryBack(entries[i]);
    }
  }

  lemma GroupIsEntry(g: seq<nat>)
    requires Fits(g, ENTRY) && g[7] <= 1
    ensures EntryFields(EntryFrom(g)) == g && g[0] <= MAX64
  {
    Widths();
    assert forall i :: 0 <= i < 7 ==> ENTRY[i] == 8;
    assert forall i :: 0 <= i < 7 ==> g[i] < Pow256(ENTRY[i]);
  }

  lemma GroupsAreEntries(gs: seq<seq<nat>>)
    requires GroupsFit(gs, ENTRY) && FlagsClean(gs)
    ensures EntryGroups(EntriesFrom(gs)) == gs
    ensures forall i :: 0 <= i < |gs| ==> EntriesFrom(gs)[i].decision <= MAX64
  {
    var back := EntryGroups(EntriesFrom(gs));
    forall i | 0 <= i < |gs| ensures back[i] == gs[i] && EntriesFrom(gs)[i].decision <= MAX64 {
      GroupIsEntry(gs[i]);
    }
  }

  lemma ReleaseStages(bs: seq<byte>, vs: seq<nat>, mid: seq<byte>, gs: seq<seq<nat>>, rest: seq<byte>)
    requires TakeFields(bs, RELEASE_HEADER) == Taken(vs, mid) && |vs| == 4 && vs[2] <= 9 && vs[3] <= MAX_RESOURCE_BINDINGS
    requires TakeGroups(mid, ENTRY, vs[3]) == Taken(gs, rest) && (forall i :: 0 <= i < |gs| ==> |gs[i]| == 8) && FlagsClean(gs)
    ensures ParseRelease(bs) == Parsed(ReleaseFrom(vs, gs), rest)
  {}

  lemma ReleaseHeaderTaken(r: ReleaseRecord, rest: seq<byte>)
    requires ReleaseBounded(r)
    ensures TakeFields(ReleaseBytes(r) + rest, RELEASE_HEADER) == Taken(ReleaseFields(r), GroupsBytes(EntryGroups(r.released), ENTRY) + rest)
  {
    ReleaseFits(r);
    var tail := GroupsBytes(EntryGroups(r.released), ENTRY);
    TakeFieldsBytes(ReleaseFields(r), RELEASE_HEADER, tail + rest);
    Regroup(FieldsBytes(ReleaseFields(r), RELEASE_HEADER), tail, rest);
  }

  lemma ReleaseRebuilt(r: ReleaseRecord)
    requires ReleaseBounded(r)
    ensures
      var vs, gs := ReleaseFields(r), EntryGroups(r.released);
      vs[2] <= 9 && vs[3] == |gs| && GroupsFit(gs, ENTRY) && FlagsClean(gs) && ReleaseFrom(vs, gs) == r
  {
    EntriesFit(r.released);
    ReasonRound(r.reason);
  }

  lemma ReleaseParses(r: ReleaseRecord, rest: seq<byte>)
    requires ReleaseBounded(r)
    ensures ParseRelease(ReleaseBytes(r) + rest) == Parsed(r, rest)
  {
    var vs, gs := ReleaseFields(r), EntryGroups(r.released);
    ReleaseHeaderTaken(r, rest);
    ReleaseRebuilt(r);
    TakeGroupsBytes(gs, ENTRY, rest);
    ReleaseStages(ReleaseBytes(r) + rest, vs, GroupsBytes(gs, ENTRY) + rest, gs, rest);
  }

  lemma ReleaseBack(vs: seq<nat>, gs: seq<seq<nat>>)
    requires Fits(vs, RELEASE_HEADER) && vs[2] <= 9 && GroupsFit(gs, ENTRY) && |gs| == vs[3]
    ensures ReleaseFields(ReleaseFrom(vs, gs)) == vs && vs[0] <= MAX64
  {
    WordsFit(vs, RELEASE_HEADER);
    ReasonBack(vs[2]);
  }

  lemma ParsedReleaseStages(bs: seq<byte>) returns (vs: seq<nat>, mid: seq<byte>, gs: seq<seq<nat>>, rest: seq<byte>)
    requires ParseRelease(bs).Parsed?
    ensures TakeFields(bs, RELEASE_HEADER) == Taken(vs, mid) && |vs| == 4 && vs[2] <= 9 && vs[3] <= MAX_RESOURCE_BINDINGS
    ensures TakeGroups(mid, ENTRY, vs[3]) == Taken(gs, rest) && |gs| == vs[3] && (forall i :: 0 <= i < |gs| ==> |gs[i]| == 8) && FlagsClean(gs)
    ensures ParseRelease(bs) == Parsed(ReleaseFrom(vs, gs), rest)
  {
    var h := TakeFields(bs, RELEASE_HEADER);
    vs, mid := h.value, h.rest;
    var g := TakeGroups(mid, ENTRY, vs[3]);
    gs, rest := g.value, g.rest;
  }

  lemma ReleaseReencodes(vs: seq<nat>, gs: seq<seq<nat>>)
    requires Fits(vs, RELEASE_HEADER) && vs[2] <= 9 && vs[3] <= MAX_RESOURCE_BINDINGS && GroupsFit(gs, ENTRY) && |gs| == vs[3] && FlagsClean(gs)
    ensures
      var r := ReleaseFrom(vs, gs);
      ReleaseBounded(r) && ReleaseBytes(r) == FieldsBytes(vs, RELEASE_HEADER) + GroupsBytes(gs, ENTRY)
  {
    ReleaseBack(vs, gs);
    GroupsAreEntries(gs);
  }

  lemma ParsedRelease(bs: seq<byte>)
    requires ParseRelease(bs).Parsed?
    ensures
      var r := ParseRelease(bs);
      ReleaseBounded(r.value) && bs == ReleaseBytes(r.value) + r.rest
  {
    var vs, mid, gs, rest := ParsedReleaseStages(bs);
    FieldsBytesTaken(bs, RELEASE_HEADER);
    GroupsBytesTaken(mid, ENTRY, vs[3]);
    ReleaseReencodes(vs, gs);
    Regroup(FieldsBytes(vs, RELEASE_HEADER), GroupsBytes(gs, ENTRY), rest);
  }

  // ------------------------------------------------------------------
  // Decision
  // ------------------------------------------------------------------

  const DECISION: seq<nat> := [8, 8, 1, 8, 8, 8, 8, 8, 8, 8, 8, 8, 8, 8, 8, 8, 8, 8, 8, 1, 1, 1, 1]

  function DecisionFields(r: DecisionRecord): seq<nat> {
    [r.decision, r.audit, OutcomeCode(r.outcome), r.request, r.demand, r.demandGeneration, r.attempt, r.path,
     r.granted, r.epoch, r.incarnation, r.decidedTick, r.fingerprint, r.boundCapacity, r.boundPolicy, r.boundQos,
     r.boundPriority, r.boundPath, r.boundReservation, StateCode(r.state), ReasonCode(r.reason),
     Bit(r.ledgerLive), Bit(r.restoredFromDisk)]
  }

  function DecisionBytes(r: DecisionRecord): seq<byte> {
    FieldsBytes(DecisionFields(r), DECISION)
  }

  function DecisionFrom(v: seq<nat>): DecisionRecord
    requires |v| == 23
  {
    DecisionRecord(v[0], v[1], OutcomeFrom(v[2]), Word(v[3]), Word(v[4]), Word(v[5]), Word(v[6]), Word(v[7]),
                   Word(v[8]), Word(v[9]), Word(v[10]), Word(v[11]), Word(v[12]), Word(v[13]), Word(v[14]), Word(v[15]),
                   Word(v[16]), Word(v[17]), Word(v[18]), StateFrom(v[19]), ReasonFrom(v[20]), v[21] == 1, v[22] == 1)
  }

  predicate DecisionCodes(v: seq<nat>)
    requires |v| == 23
  {
    v[2] <= 10 && v[19] <= 6 && v[20] <= 9 && v[21] <= 1 && v[22] <= 1
  }

  function ParseDecision(bs: seq<byte>): Parse<DecisionRecord> {
    match TakeFields(bs, DECISION)
    case Short => Rejected(MalformedInput)
    case Taken(vs, rest) => if DecisionCodes(vs) then Parsed(DecisionFrom(vs), rest) else Rejected(MalformedInput)
  }

  predicate DecisionBounded(r: DecisionRecord) {
    r.decision <= MAX64 && r.audit <= MAX64
  }

  lemma DecisionFits(r: DecisionRecord)
    requires DecisionBounded(r)
    ensures Fits(DecisionFields(r), DECISION) && DecisionCodes(DecisionFields(r)) && DecisionFrom(DecisionFields(r)) == r
  {
    Widths();
  }

  lemma DecisionParses(r: DecisionRecord, rest: seq<byte>)
    requires DecisionBounded(r)
    ensures ParseDecision(DecisionBytes(r) + rest) == Parsed(r, rest)
  {
    DecisionFits(r);
    TakeFieldsBytes(DecisionFields(r), DECISION, rest);
  }

  lemma DecisionBack(vs: seq<nat>)
    requires Fits(vs, DECISION) && DecisionCodes(vs)
    ensures DecisionFields(DecisionFrom(vs)) == vs && DecisionBounded(DecisionFrom(vs))
  {
    WordsFit(vs, DECISION);
    OutcomeBack(vs[2]);
    StateBack(vs[19]);
    ReasonBack(vs[20]);
  }

  lemma ParsedDecision(bs: seq<byte>)
    requires ParseDecision(bs).Parsed?
    ensures
      var r := ParseDecision(bs);
      DecisionBounded(r.value) && bs == DecisionBytes(r.value) + r.rest
  {
    FieldsBytesTaken(bs, DECISION);
    DecisionBack(TakeFields(bs, DECISION).value);
  }

  // ------------------------------------------------------------------
  // Revocation and audit mark
  // ------------------------------------------------------------------

  const REVOCATION: seq<nat> := [8, 8, 8, 1, 1]

  function RevocationFields(v: RevocationRecord): seq<nat> {
    [v.decision, v.epoch, v.audit, ReasonCode(v.reason), StateCode(v.state)]
  }

  function RevocationBytes(v: RevocationRecord): seq<byte> {
    FieldsBytes(RevocationFields(v), REVOCATION)
  }

  function ParseRevocation(bs: seq<byte>): Parse<RevocationRecord> {
    match TakeFields(bs, REVOCATION)
    case Short => Rejected(MalformedInput)
    case Taken(v, rest) =>
      if v[3] > 9 || v[4] > 6 then Rejected(MalformedInput)
      else Parsed(RevocationRecord(v[0], Word(v[1]), v[2], ReasonFrom(v[3]), StateFrom(v[4])), rest)
  }

  predicate RevocationBounded(v: RevocationRecord) {
    v.decision <= MAX64 && v.audit <= MAX64
  }

  lemma RevocationFits(v: RevocationRecord)
    requires RevocationBounded(v)
    ensures Fits(RevocationFields(v), REVOCATION)
  {
    Widths();
    ReasonRound(v.reason);
    StateRound(v.state);
  }

  lemma RevocationParses(v: RevocationRecord, rest: seq<byte>)
    requires RevocationBounded(v)
    ensures ParseRevocation(RevocationBytes(v) + rest) == Parsed(v, rest)
  {
    RevocationFits(v);
    ReasonRound(v.reason);
    StateRound(v.state);
    TakeFieldsBytes(RevocationFields(v), REVOCATION, rest);
  }

  lemma ParsedRevocation(bs: seq<byte>)
    requires ParseRevocation(bs).Parsed?
    ensures
      var r := ParseRevocation(bs);
      RevocationBounded(r.value) && bs == RevocationBytes(r.value) + r.rest
  {
    FieldsBytesTaken(bs, REVOCATION);
    var v := TakeFields(bs, REVOCATION).value;
    WordsFit(v, REVOCATION);
    ReasonBack(v[3]);
    StateBack(v[4]);
    assert RevocationFields(ParseRevocation(bs).value) == v;
  }

  const MARK: seq<nat> := [8, 8, 8]

  function MarkFields(m: AuditMarkRecord): seq<nat> {
    [m.sequence, m.epoch, m.frames]
  }

  function MarkBytes(m: AuditMarkRecord): seq<byte> {
    FieldsBytes(MarkFields(m), MARK)
  }

  function ParseMark(bs: seq<byte>): Parse<AuditMarkRecord> {
    match TakeFields(bs, MARK)
    case Short => Rejected(MalformedInput)
    case Taken(v, rest) => Parsed(AuditMarkRecord(v[0], Word(v[1]), v[2]), rest)
  }

  predicate MarkBounded(m: AuditMarkRecord) {
    m.sequence <= MAX64 && m.frames <= MAX64
  }

  lemma MarkParses(m: AuditMarkRecord, rest: seq<byte>)
    requires MarkBounded(m)
    ensures ParseMark(MarkBytes(m) + rest) == Parsed(m, rest)
  {
    Widths();
    TakeFieldsBytes(MarkFields(m), MARK, rest);
  }

  lemma ParsedMark(bs: seq<byte>)
    requires ParseMark(bs).Parsed?
    ensures
      var r := ParseMark(bs);
      MarkBounded(r.value) && bs == MarkBytes(r.value) + r.rest
  {
    FieldsBytesTaken(bs, MARK);
    var v := TakeFields(bs, MARK).value;
    WordsFit(v, MARK);
    assert MarkFields(ParseMark(bs).value) == v;
  }

  // ------------------------------------------------------------------
  // Boot
  // ------------------------------------------------------------------

  function CharByte(c: char): byte {
    c as int % 256
  }

  function CharsBytes(s: string): (bs: seq<byte>)
    ensures |bs| == |s| && forall i :: 0 <= i < |s| ==> bs[i] == CharByte(s[i])
  {
    seq(|s|, i requires 0 <= i < |s| => CharByte(s[i]))
  }

  function BytesChars(bs: seq<byte>): (s: string)
    ensures |s| == |bs| && forall i :: 0 <= i < |s| ==> s[i] == bs[i] as char
  {
    seq(|bs|, i requires 0 <= i < |bs| => bs[i] as char)
  }

  /** A text longer than the bound is not written at all. */
  function TextBytes(s: string): seq<byte> {
    if |s| > MAX_STRING_BYTES then [] else LittleEndian(|s|, 2) + CharsBytes(s)
  }

  function ParseText(bs: seq<byte>): Parse<string> {
    if |bs| < 2 then Rejected(MalformedInput)
    else
      var n := ValueOf(bs[..2]);
      if n > MAX_STRING_BYTES || |bs| - 2 < n then Rejected(MalformedInput)
      else Parsed(BytesChars(bs[2..2 + n]), bs[2 + n..])
  }

  predicate TextBounded(s: string) {
    |s| <= MAX_STRING_BYTES && forall i :: 0 <= i < |s| ==> s[i] as int < 256
  }

  lemma TextParses(s: string, rest: seq<byte>)
    requires TextBounded(s)
    ensures ParseText(TextBytes(s) + rest) == Parsed(s, rest)
  {
    Widths();
    LittleEndianValue(|s|, 2);
    var bs := TextBytes(s) + rest;
    assert bs[..2] == LittleEndian(|s|, 2);
    assert bs[2..2 + |s|] == CharsBytes(s);
    assert bs[2 + |s|..] == rest;
    assert BytesChars(CharsBytes(s)) == s;
  }

  lemma ParsedText(bs: seq<byte>)
    requires ParseText(bs).Parsed?
    ensures
      var r := ParseText(bs);
      TextBounded(r.value) && bs == TextBytes(r.value) + r.rest
  {
    var n := ValueOf(bs[..2]);
    ValueLittleEndian(bs[..2]);
    var body := bs[2..2 + n];
    assert CharsBytes(BytesChars(body)) == body;
    assert bs == bs[..2] + body + bs[2 + n..];
  }

  const REVISION_WIDTH: seq<nat> := [2]
  const BOOT_TAIL: seq<nat> := [8, 8, 8]

  function BootTail(r: BootRecord): seq<nat> {
    [r.epoch, r.bootNonce, r.incarnation]
  }

  function BootBytes(r: BootRecord): seq<byte> {
    FieldsBytes([r.formatRevision], REVISION_WIDTH) + TextBytes(r.product) + FieldsBytes(BootTail(r), BOOT_TAIL)
  }

  function ParseBoot(bs: seq<byte>): Parse<BootRecord> {
    match TakeFields(bs, REVISION_WIDTH)
    case Short => Rejected(MalformedInput)
    case Taken(rev, rest) =>
      match ParseText(rest)
      case Rejected(status) => Rejected(status)
      case Parsed(product, rest') =>
        match TakeFields(rest', BOOT_TAIL)
        case Short => Rejected(MalformedInput)
        case Taken(v, rest'') => Parsed(BootRecord(Word(v[0]), rev[0], product, Word(v[1]), Word(v[2])), rest'')
  }

  predicate BootBounded(r: BootRecord) {
    r.formatRevision < 0x1_0000 && TextBounded(r.product)
  }

  lemma BootParses(r: BootRecord, rest: seq<byte>)
    requires BootBounded(r)
    ensures ParseBoot(BootBytes(r) + rest) == Parsed(r, rest)
  {
    Widths();
    var tail := FieldsBytes(BootTail(r), BOOT_TAIL);
    TakeFieldsBytes([r.formatRevision], REVISION_WIDTH, TextBytes(r.product) + (tail + rest));
    TextParses(r.product, tail + rest);
    TakeFieldsBytes(BootTail(r), BOOT_TAIL, rest);
    Reassociate(FieldsBytes([r.formatRevision], REVISION_WIDTH), TextBytes(r.product), tail, rest);
  }

  lemma BootBack(rev: seq<nat>, v: seq<nat>)
    requires Fits(rev, REVISION_WIDTH) && Fits(v, BOOT_TAIL)
    ensures v == [Word(v[0]) as nat, Word(v[1]) as nat, Word(v[2]) as nat] && rev == [rev[0]] && rev[0] < 0x1_0000
  {
    Widths();
    WordsFit(v, BOOT_TAIL);
  }

  lemma BootStages(bs: seq<byte>)
    requires ParseBoot(bs).Parsed?
    ensures
      var h := TakeFields(bs, REVISION_WIDTH);
      h.Taken? &&
      var t := ParseText(h.rest);
      t.Parsed? &&
      var v := TakeFields(t.rest, BOOT_TAIL);
      v.Taken? && ParseBoot(bs) == Parsed(BootRecord(Word(v.value[0]), h.value[0], t.value, Word(v.value[1]), Word(v.value[2])), v.rest)
  {}

  lemma ParsedBoot(bs: seq<byte>)
    requires ParseBoot(bs).Parsed?
    ensures
      var r := ParseBoot(bs);
      BootBounded(r.value) && bs == BootBytes(r.value) + r.rest
  {
    BootStages(bs);
    var h := TakeFields(bs, REVISION_WIDTH);
    var t := ParseText(h.rest);
    var v := TakeFields(t.rest, BOOT_TAIL);
    FieldsBytesTaken(bs, REVISION_WIDTH);
    ParsedText(h.rest);
    FieldsBytesTaken(t.rest, BOOT_TAIL);
    BootBack(h.value, v.value);
    Reassociate(FieldsBytes(h.value, REVISION_WIDTH), TextBytes(t.value), FieldsBytes(v.value, BOOT_TAIL), v.rest);
  }

  lemma Reassociate(a: seq<byte>, b: seq<byte>, c: seq<byte>, d: seq<byte>)
    ensures a + (b + (c + d)) == a + b + c + d
  {}

  // ------------------------------------------------------------------
  // Policy
  // ------------------------------------------------------------------

  const POLICY_HEAD: seq<nat> := [8, 8, 8, 8, 4, 8, 1, 1, 1, 1, 1, 1, 4]
  const ID: seq<nat> := [8]
  const COUNT: seq<nat> := [4]
  const POLICY_TAIL: seq<nat> := [4, 4, 4, 8]

  function ActionCode(a: ContentionAction): nat {
    if a == DeferOnContention then 0 else 1
  }

  function ActionFrom(c: nat): ContentionAction {
    if c == 0 then DeferOnContention else RejectOnContention
  }

  function IdGroups(ids: seq<u64>): (gs: seq<seq<nat>>)
    ensures |gs| == |ids| && forall i :: 0 <= i < |gs| ==> gs[i] == [ids[i] as nat]
  {
    seq(|ids|, i requires 0 <= i < |ids| => [ids[i] as nat])
  }

  function IdsFrom(gs: seq<seq<nat>>): (ids: seq<u64>)
    requires forall i :: 0 <= i < |gs| ==> |gs[i]| == 1
    ensures |ids| == |gs| && forall i :: 0 <= i < |ids| ==> ids[i] == Word(gs[i][0])
  {
    seq(|gs|, i requires 0 <= i < |gs| => Word(gs[i][0]))
  }

  function PolicyHead(p: Policy): seq<nat> {
    [p.id, p.generation, p.epoch, p.observedTick, p.headroomPermille, p.headroomFloor,
     Bit(p.allowDegraded), Bit(p.allowPreemptible), Bit(p.requirePathBinding), Bit(p.requireReservationReference),
     Bit(p.allowPathSubstitution), ActionCode(p.onContention), |p.allowedQos|]
  }

  function PolicyTail(p: Policy): seq<nat> {
    [p.maxExplanationConstraints, p.maxExplanationBytes, p.maxEffectiveResources, p.deferHorizonTicks]
  }

  function PolicyBytes(p: Policy): seq<byte> {
    FieldsBytes(PolicyHead(p), POLICY_HEAD) + GroupsBytes(IdGroups(p.allowedQos), ID)
      + FieldsBytes([|p.allowedPriorities|], COUNT) + GroupsBytes(IdGroups(p.allowedPriorities), ID)
      + FieldsBytes(PolicyTail(p), POLICY_TAIL)
  }

  function PolicyFrom(h: seq<nat>, qos: seq<u64>, priorities: seq<u64>, t: seq<nat>): Policy
    requires |h| == 13 && |t| == 4
  {
    Policy(Word(h[0]), Word(h[1]), Word(h[2]), Word(h[3]), Word(h[4]), Word(h[5]),
           h[6] == 1, h[7] == 1, h[8] == 1, h[9] == 1, h[10] == 1, ActionFrom(h[11]), qos, priorities,
           Word(t[0]), Word(t[1]), Word(t[2]), Word(t[3]))
  }

  predicate PolicyCodes(h: seq<nat>)
    requires |h| == 13
  {
    h[6] <= 1 && h[7] <= 1 && h[8] <= 1 && h[9] <= 1 && h[10] <= 1 && h[11] <= 1
  }

  function ParseIds(bs: seq<byte>, n: nat): Parse<seq<u64>> {
    if n > MAX_ALLOWED_CLASSES then Rejected(OversizedInput)
    else
      match TakeGroups(bs, ID, n)
      case Short => Rejected(MalformedInput)
      case Taken(gs, rest) => Parsed(IdsFrom(gs), rest)
  }

  /** The allowed priorities and what follows them. */
  function ParsePriorities(bs: seq<byte>): Parse<seq<u64>> {
    match TakeFields(bs, COUNT)
    case Short => Rejected(MalformedInput)
    case Taken(n, rest) => ParseIds(rest, n[0])
  }

  function ParsePolicy(bs: seq<byte>): Parse<Policy> {
    match TakeFields(bs, POLICY_HEAD)
    case Short => Rejected(MalformedInput)
    case Taken(h, rest) =>
      if !PolicyCodes(h) then Rejected(MalformedInput)
      else
        match ParseIds(rest, h[12])
        case Rejected(status) => Rejected(status)
        case Parsed(qos, rest1) =>
          match ParsePriorities(rest1)
          case Rejected(status) => Rejected(status)
          case Parsed(priorities, rest2) =>
            match TakeFields(rest2, POLICY_TAIL)
            case Short => Rejected(MalformedInput)
            case Taken(t, rest3) => Parsed(PolicyFrom(h, qos, priorities, t), rest3)
  }

  predicate PolicyBounded(p: Policy) {
    |p.allowedQos| <= MAX_ALLOWED_CLASSES && |p.allowedPriorities| <= MAX_ALLOWED_CLASSES &&
    p.headroomPermille < TWO32 && p.maxExplanationConstraints < TWO32 && p.maxExplanationBytes < TWO32 && p.maxEffectiveResources < TWO32
  }

  lemma IdsParse(ids: seq<u64>, rest: seq<byte>)
    requires |ids| <= MAX_ALLOWED_CLASSES
    ensures ParseIds(GroupsBytes(IdGroups(ids), ID) + rest, |ids|) == Parsed(ids, rest)
  {
    Widths();
    var gs := IdGroups(ids);
    forall i | 0 <= i < |gs| ensures Fits(gs[i], ID) {}
    TakeGroupsBytes(gs, ID, rest);
    assert IdsFrom(gs) == ids;
  }

  lemma ParsedIds(bs: seq<byte>, n: nat)
    requires ParseIds(bs, n).Parsed?
    ensures
      var r := ParseIds(bs, n);
      |r.value| == n <= MAX_ALLOWED_CLASSES && bs == GroupsBytes(IdGroups(r.value), ID) + r.rest
  {
    GroupsBytesTaken(bs, ID, n);
    var gs := TakeGroups(bs, ID, n).value;
    var back := IdGroups(IdsFrom(gs));
    forall i | 0 <= i < |gs| ensures back[i] == gs[i] {
      WordsFit(gs[i], ID);
      assert gs[i] == [gs[i][0]];
    }
    assert back == gs;
  }

  lemma PrioritiesParse(ids: seq<u64>, rest: seq<byte>)
    requires |ids| <= MAX_ALLOWED_CLASSES
    ensures ParsePriorities(FieldsBytes([|ids|], COUNT) + GroupsBytes(IdGroups(ids), ID) + rest) == Parsed(ids, rest)
  {
    Widths();
    var tail := GroupsBytes(IdGroups(ids), ID) + rest;
    TakeFieldsBytes([|ids|], COUNT, tail);
    IdsParse(ids, rest);
    assert FieldsBytes([|ids|], COUNT) + GroupsBytes(IdGroups(ids), ID) + rest == FieldsBytes([|ids|], COUNT) + tail;
  }

  lemma ParsedPriorities(bs: seq<byte>)
    requires ParsePriorities(bs).Parsed?
    ensures
      var r := ParsePriorities(bs);
      |r.value| <= MAX_ALLOWED_CLASSES &&
      bs == FieldsBytes([|r.value|], COUNT) + GroupsBytes(IdGroups(r.value), ID) + r.rest
  {
    FieldsBytesTaken(bs, COUNT);
    var n := TakeFields(bs, COUNT);
    ParsedIds(n.rest, n.value[0]);
    assert n.value == [n.value[0]];
  }

  lemma PolicyFits(p: Policy)
    requires PolicyBounded(p)
    ensures Fits(PolicyHead(p), POLICY_HEAD) && Fits(PolicyTail(p), POLICY_TAIL) && PolicyCodes(PolicyHead(p))
  {
    Widths();
  }

  lemma PolicyRebuilt(p: Policy)
    ensures PolicyFrom(PolicyHead(p), p.allowedQos, p.allowedPriorities, PolicyTail(p)) == p
  {}

  lemma PolicyStages(bs: seq<byte>, h: seq<nat>, b1: seq<byte>, qos: seq<u64>, b2: seq<byte>, priorities: seq<u64>, b3: seq<byte>, t: seq<nat>, rest: seq<byte>)
    requires TakeFields(bs, POLICY_HEAD) == Taken(h, b1) && |h| == 13 && PolicyCodes(h)
    requires ParseIds(b1, h[12]) == Parsed(qos, b2) && ParsePriorities(b2) == Parsed(priorities, b3)
    requires TakeFields(b3, POLICY_TAIL) == Taken(t, rest) && |t| == 4
    ensures ParsePolicy(bs) == Parsed(PolicyFrom(h, qos, priorities, t), rest)
  {}

  lemma PolicyShape(p: Policy, rest: seq<byte>)
    ensures
      var b3 := FieldsBytes(PolicyTail(p), POLICY_TAIL) + rest;
      var b2 := FieldsBytes([|p.allowedPriorities|], COUNT) + GroupsBytes(IdGroups(p.allowedPriorities), ID) + b3;
      var b1 := GroupsBytes(IdGroups(p.allowedQos), ID) + b2;
      PolicyBytes(p) + rest == FieldsBytes(PolicyHead(p), POLICY_HEAD) + b1
  {
    FiveParts(FieldsBytes(PolicyHead(p), POLICY_HEAD), GroupsBytes(IdGroups(p.allowedQos), ID),
              FieldsBytes([|p.allowedPriorities|], COUNT), GroupsBytes(IdGroups(p.allowedPriorities), ID),
              FieldsBytes(PolicyTail(p), POLICY_TAIL), rest);
  }

  lemma FiveParts(a: seq<byte>, b: seq<byte>, c: seq<byte>, d: seq<byte>, e: seq<byte>, f: seq<byte>)
    ensures a + b + c + d + e + f == a + (b + (c + d + (e + f)))
  {}

  lemma PolicyParses(p: Policy, rest: seq<byte>)
    requires PolicyBounded(p)
    ensures ParsePolicy(PolicyBytes(p) + rest) == Parsed(p, rest)
  {
    var b3 := FieldsBytes(PolicyTail(p), POLICY_TAIL) + rest;
    var b2 := FieldsBytes([|p.allowedPriorities|], COUNT) + GroupsBytes(IdGroups(p.allowedPriorities), ID) + b3;
    var b1 := GroupsBytes(IdGroups(p.allowedQos), ID) + b2;
    PolicyShape(p, rest);
    PolicyFits(p);
    TakeFieldsBytes(PolicyHead(p), POLICY_HEAD, b1);
    IdsParse(p.allowedQos, b2);
    PrioritiesParse(p.allowedPriorities, b3);
    TakeFieldsBytes(PolicyTail(p), POLICY_TAIL, rest);
    PolicyStages(PolicyBytes(p) + rest, PolicyHead(p), b1, p.allowedQos, b2, p.allowedPriorities, b3, PolicyTail(p), rest);
    PolicyRebuilt(p);
  }

  lemma HalfWordsFit(vs: seq<nat>, ws: seq<nat>)
    requires Fits(vs, ws)
    ensures forall i :: 0 <= i < |vs| && ws[i] == 4 ==> vs[i] < TWO32
  {
    Widths();
  }

  lemma PolicyHeadBack(h: seq<nat>, qos: seq<u64>, priorities: seq<u64>, t: seq<nat>)
    requires Fits(h, POLICY_HEAD) && PolicyCodes(h) && |qos| == h[12] && |t| == 4
    ensures PolicyHead(PolicyFrom(h, qos, priorities, t)) == h && h[4] < TWO32
  {
    WordsFit(h, POLICY_HEAD);
    HalfWordsFit(h, POLICY_HEAD);
  }

  lemma PolicyTailBack(h: seq<nat>, qos: seq<u64>, priorities: seq<u64>, t: seq<nat>)
    requires |h| == 13 && Fits(t, POLICY_TAIL)
    ensures PolicyTail(PolicyFrom(h, qos, priorities, t)) == t && t[0] < TWO32 && t[1] < TWO32 && t[2] < TWO32
  {
    WordsFit(t, POLICY_TAIL);
    HalfWordsFit(t, POLICY_TAIL);
  }

  lemma ParsedPolicyStages(bs: seq<byte>)
    returns (h: seq<nat>, b1: seq<byte>, qos: seq<u64>, b2: seq<byte>, priorities: seq<u64>, b3: seq<byte>, t: seq<nat>, rest: seq<byte>)
    requires ParsePolicy(bs).Parsed?
    ensures TakeFields(bs, POLICY_HEAD) == Taken(h, b1) && |h| == 13 && PolicyCodes(h)
    ensures ParseIds(b1, h[12]) == Parsed(qos, b2) && ParsePriorities(b2) == Parsed(priorities, b3)
    ensures TakeFields(b3, POLICY_TAIL) == Taken(t, rest) && |t| == 4
    ensures ParsePolicy(bs) == Parsed(PolicyFrom(h, qos, priorities, t), rest)
  {
    var head := TakeFields(bs, POLICY_HEAD);
    h, b1 := head.value, head.rest;
    var q := ParseIds(b1, h[12]);
    qos, b2 := q.value, q.rest;
    var p := ParsePriorities(b2);
    priorities, b3 := p.value, p.rest;
    var tail := TakeFields(b3, POLICY_TAIL);
    t, rest := tail.value, tail.rest;
  }

  lemma ParsedPolicy(bs: seq<byte>)
    requires ParsePolicy(bs).Parsed?
    ensures
      var r := ParsePolicy(bs);
      PolicyBounded(r.value) && bs == PolicyBytes(r.value) + r.rest
  {
    var h, b1, qos, b2, priorities, b3, t, rest := ParsedPolicyStages(bs);
    var p := PolicyFrom(h, qos, priorities, t);
    FieldsBytesTaken(bs, POLICY_HEAD);
    ParsedIds(b1, h[12]);
    ParsedPriorities(b2);
    FieldsBytesTaken(b3, POLICY_TAIL);
    PolicyHeadBack(h, qos, priorities, t);
    PolicyTailBack(h, qos, priorities, t);
    PolicyShape(p, rest);
  }

  // ------------------------------------------------------------------
  // Any record
  // ------------------------------------------------------------------

  const KIND_BOOT := 1
  const KIND_POLICY := 2
  const KIND_PREPARE := 3
  const KIND_COMMIT := 4
  const KIND_REFUSED := 5
  const KIND_RELEASE := 6
  const KIND_REVOCATION := 7
  const KIND_MARK := 8

  function KindOf(r: Record): nat {
    match r
    case BootEpoch(_) => KIND_BOOT
    case PolicyConfig(_) => KIND_POLICY
    case AdmissionPrepare(_) => KIND_PREPARE
    case AdmissionCommit(_) => KIND_COMMIT
    case AdmissionRefused(_) => KIND_REFUSED
    case LedgerRelease(_) => KIND_RELEASE
    case Revocation(_) => KIND_REVOCATION
    case AuditMark(_) => KIND_MARK
  }

  function PayloadOf(r: Record): seq<byte> {
    match r
    case BootEpoch(b) => BootBytes(b)
    case PolicyConfig(p) => PolicyBytes(p)
    case AdmissionPrepare(p) => PrepareBytes(p)
    case AdmissionCommit(d) => DecisionBytes(d)
    case AdmissionRefused(d) => DecisionBytes(d)
    case LedgerRelease(l) => ReleaseBytes(l)
    case Revocation(v) => RevocationBytes(v)
    case AuditMark(m) => MarkBytes(m)
  }

  function Mapped<S, T>(p: Parse<S>, f: S -> T): Parse<T> {
    match p
    case Rejected(status) => Rejected(status)
    case Parsed(x, rest) => Parsed(f(x), rest)
  }

  predicate IsRecordKind(kind: nat) {
    KIND_BOOT <= kind <= KIND_MARK
  }

  function ParseRecord(kind: nat, bs: seq<byte>): Parse<Record>
    requires IsRecordKind(kind)
  {
    if kind == KIND_BOOT then Mapped(ParseBoot(bs), (b: BootRecord) => BootEpoch(b))
    else if kind == KIND_POLICY then Mapped(ParsePolicy(bs), (p: Policy) => PolicyConfig(p))
    else if kind == KIND_PREPARE then Mapped(ParsePrepare(bs), (p: PrepareRecord) => AdmissionPrepare(p))
    else if kind == KIND_COMMIT then Mapped(ParseDecision(bs), (d: DecisionRecord) => AdmissionCommit(d))
    else if kind == KIND_REFUSED then Mapped(ParseDecision(bs), (d: DecisionRecord) => AdmissionRefused(d))
    else if kind == KIND_RELEASE then Mapped(ParseRelease(bs), (l: ReleaseRecord) => LedgerRelease(l))
    else if kind == KIND_REVOCATION then Mapped(ParseRevocation(bs), (v: RevocationRecord) => Revocation(v))
    else Mapped(ParseMark(bs), (m: AuditMarkRecord) => AuditMark(m))
  }

  /** A record must use up its payload. */
  function DecodeRecord(kind: nat, bs: seq<byte>): Parse<Record>
    requires IsRecordKind(kind)
  {
    var p := ParseRecord(kind, bs);
    if p.Parsed? && p.rest != [] then Rejected(MalformedInput) else p
  }

  predicate Bounded(r: Record) {
    match r
    case BootEpoch(b) => BootBounded(b)
    case PolicyConfig(p) => PolicyBounded(p)
    case AdmissionPrepare(p) => PrepareBounded(p)
    case AdmissionCommit(d) => DecisionBounded(d)
    case AdmissionRefused(d) => DecisionBounded(d)
    case LedgerRelease(l) => ReleaseBounded(l)
    case Revocation(v) => RevocationBounded(v)
    case AuditMark(m) => MarkBounded(m)
  }

  lemma DecisionRecordParses(r: Record, rest: seq<byte>)
    requires Bounded(r) && (r.AdmissionCommit? || r.AdmissionRefused?)
    ensures ParseRecord(KindOf(r), PayloadOf(r) + rest) == Parsed(r, rest)
  {
    DecisionParses(if r.AdmissionCommit? then r.commit else r.refused, rest);
  }

  lemma SmallRecordParses(r: Record, rest: seq<byte>)
    requires Bounded(r) && (r.Revocation? || r.AuditMark?)
    ensures ParseRecord(KindOf(r), PayloadOf(r) + rest) == Parsed(r, rest)
  {
    match r
    case Revocation(v) => RevocationParses(v, rest);
    case AuditMark(m) => MarkParses(m, rest);
  }

  lemma VaryingRecordParses(r: Record, rest: seq<byte>)
    requires Bounded(r) && (r.BootEpoch? || r.PolicyConfig? || r.AdmissionPrepare? || r.LedgerRelease?)
    ensures ParseRecord(KindOf(r), PayloadOf(r) + rest) == Parsed(r, rest)
  {
    match r
    case BootEpoch(b) => BootParses(b, rest);
    case PolicyConfig(p) => PolicyParses(p, rest);
    case AdmissionPrepare(p) => PrepareParses(p, rest);
    case LedgerRelease(l) => ReleaseParses(l, rest);
  }

  lemma RecordParses(r: Record, rest: seq<byte>)
    requires Bounded(r)
    ensures ParseRecord(KindOf(r), PayloadOf(r) + rest) == Parsed(r, rest)
  {
    if r.AdmissionCommit? || r.AdmissionRefused? {
      DecisionRecordParses(r, rest);
    } else if r.Revocation? || r.AuditMark? {
      SmallRecordParses(r, rest);
    } else {
      VaryingRecordParses(r, rest);
    }
  }

  lemma ParsedRecord(kind: nat, bs: seq<byte>)
    requires IsRecordKind(kind) && ParseRecord(kind, bs).Parsed?
    ensures
      var p := ParseRecord(kind, bs);
      KindOf(p.value) == kind && Bounded(p.value) && bs == PayloadOf(p.value) + p.rest
  {
    if kind == KIND_BOOT {
      ParsedBoot(bs);
    } else if kind == KIND_POLICY {
      ParsedPolicy(bs);
    } else if kind == KIND_PREPARE {
      ParsedPrepare(bs);
    } else if kind == KIND_COMMIT || kind == KIND_REFUSED {
      ParsedDecision(bs);
    } else if kind == KIND_RELEASE {
      ParsedRelease(bs);
    } else if kind == KIND_REVOCATION {
      ParsedRevocation(bs);
    } else {
      ParsedMark(bs);
    }
  }

  /** Decoding an encoding gives the record back. */
  lemma DecodeEncode(r: Record)
    requires Bounded(r)
    ensures DecodeRecord(KindOf(r), PayloadOf(r)) == Parsed(r, [])
  {
    RecordParses(r, []);
    NothingMore(PayloadOf(r));
  }

  /** Every accepted payload is the encoding of a record within bounds, so
      encoding what was decoded gives the payload back. */
  lemma EncodeDecode(kind: nat, bs: seq<byte>)
    requires IsRecordKind(kind) && DecodeRecord(kind, bs).Parsed?
    ensures
      var r := DecodeRecord(kind, bs).value;
      Bounded(r) && KindOf(r) == kind && PayloadOf(r) == bs
  {
    ParsedRecord(kind, bs);
    NothingMore(PayloadOf(DecodeRecord(kind, bs).value));
  }

  /** Nothing longer than an encoding is accepted. */
  lemma ExtensionRejected(r: Record, extra: seq<byte>)
    requires Bounded(r) && extra != []
    ensures DecodeRecord(KindOf(r), PayloadOf(r) + extra) == Rejected(MalformedInput)
  {
    RecordParses(r, extra);
  }

  /** No encoding of a kind begins another of the same kind. */
  lemma SelfDelimiting(x: Record, y: Record, cut: seq<byte>)
    requires Bounded(x) && Bounded(y) && KindOf(x) == KindOf(y) && PayloadOf(y) == PayloadOf(x) + cut
    ensures cut == [] && x == y
  {
    RecordParses(x, cut);
    RecordParses(y, []);
    NothingMore(PayloadOf(y));
  }

  /** Nothing shorter than an encoding is accepted. */
  lemma PrefixRejected(r: Record, n: nat)
    requires Bounded(r) && n < |PayloadOf(r)|
    ensures DecodeRecord(KindOf(r), PayloadOf(r)[..n]).Rejected?
  {
    var payload := PayloadOf(r);
    if DecodeRecord(KindOf(r), payload[..n]).Parsed? {
      EncodeDecode(KindOf(r), payload[..n]);
      CutInTwo(payload, n);
      SelfDelimiting(DecodeRecord(KindOf(r), payload[..n]).value, r, payload[n..]);
    }
  }

  lemma CutInTwo(bs: seq<byte>, n: nat)
    requires n < |bs|
    ensures bs == bs[..n] + bs[n..] && bs[n..] != []
  {}
}
