/** Where each field of a durable record lies in its payload, and under which code
    each kind and enumerator is written (src/durable/records.cpp,
    include/naf/durable/journal.hpp). */
module Layout {
  import opened Base
  import opened Model
  import opened Bytes
  import opened Records

  /** The little-endian value of `width` bytes at an offset; nothing where the
      payload is too short. */
  function WordAt(bs: seq<byte>, at: nat, width: nat): Option<nat> {
    if at + width <= |bs| then Some(ValueOf(bs[at..at + width])) else None
  }

  ghost function Offset(ws: seq<nat>, i: nat): nat
    requires i <= |ws|
  {
    if i == 0 then 0 else Offset(ws, i - 1) + ws[i - 1]
  }

  lemma {:induction false} OffsetRest(ws: seq<nat>, i: nat)
    requires 0 < i <= |ws|
    ensures Offset(ws, i) == ws[0] + Offset(ws[1..], i - 1)
  {
    if i > 1 {
      OffsetRest(ws, i - 1);
    }
  }

  lemma SliceOn(a: seq<byte>, b: seq<byte>, at: nat, width: nat)
    ensures WordAt(a + b, |a| + at, width) == WordAt(b, at, width)
  {
    if at + width <= |b| {
      assert (a + b)[|a| + at..|a| + at + width] == b[at..at + width];
    }
  }

  lemma SliceWithin(a: seq<byte>, b: seq<byte>, at: nat, width: nat)
    requires WordAt(a, at, width).Some?
    ensures WordAt(a + b, at, width) == WordAt(a, at, width)
  {
    assert (a + b)[at..at + width] == a[at..at + width];
  }

  /** A run of fields carries each value at its offset. */
  lemma {:induction false} FieldAt(vs: seq<nat>, ws: seq<nat>, i: nat)
    requires Fits(vs, ws) && i < |vs|
    ensures WordAt(FieldsBytes(vs, ws), Offset(ws, i), ws[i]) == Some(vs[i])
    decreases |vs|
  {
    var first, rest := LittleEndian(vs[0], ws[0]), FieldsBytes(vs[1..], ws[1..]);
    if i == 0 {
      LittleEndianValue(vs[0], ws[0]);
      assert first[0..ws[0]] == first;
      SliceWithin(first, rest, 0, ws[0]);
    } else {
      FieldAt(vs[1..], ws[1..], i - 1);
      OffsetRest(ws, i);
      SliceOn(first, rest, Offset(ws[1..], i - 1), ws[i]);
    }
  }

  lemma {:induction false} FieldsSize(vs: seq<nat>, ws: seq<nat>)
    requires |vs| == |ws|
    ensures |FieldsBytes(vs, ws)| == Offset(ws, |ws|)
  {
    if vs != [] {
      FieldsSize(vs[1..], ws[1..]);
      OffsetRest(ws, |ws|);
    }
  }

  /** Where group k begins. */
  ghost function Start(size: nat, k: nat): nat {
    if k == 0 then 0 else size + Start(size, k - 1)
  }

  lemma {:induction false} StartOf(k: nat)
    ensures Start(8, k) == 8 * k && Start(16, k) == 16 * k && Start(57, k) == 57 * k
  {
    if k > 0 {
      StartOf(k - 1);
    }
  }

  /** Equal groups of fields lie one after the other. */
  lemma {:induction false} GroupAt(gs: seq<seq<nat>>, ws: seq<nat>, k: nat, i: nat, size: nat)
    requires GroupsFit(gs, ws) && k < |gs| && i < |ws| && size == Offset(ws, |ws|)
    ensures WordAt(GroupsBytes(gs, ws), Start(size, k) + Offset(ws, i), ws[i]) == Some(gs[k][i])
    decreases k
  {
    var first, rest := FieldsBytes(gs[0], ws), GroupsBytes(gs[1..], ws);
    assert Fits(gs[0], ws);
    if k == 0 {
      FieldAt(gs[0], ws, i);
      SliceWithin(first, rest, Offset(ws, i), ws[i]);
    } else {
      FieldsSize(gs[0], ws);
      GroupAt(gs[1..], ws, k - 1, i, size);
      SliceOn(first, rest, Start(size, k - 1) + Offset(ws, i), ws[i]);
    }
  }

  lemma {:induction false} GroupsSize(gs: seq<seq<nat>>, ws: seq<nat>, size: nat)
    requires GroupsFit(gs, ws) && size == Offset(ws, |ws|)
    ensures |GroupsBytes(gs, ws)| == Start(size, |gs|)
  {
    if gs != [] {
      assert Fits(gs[0], ws);
      FieldsSize(gs[0], ws);
      GroupsSize(gs[1..], ws, size);
    }
  }

  // ------------------------------------------------------------------
  // Decisions
  // ------------------------------------------------------------------

  lemma DecisionOffsets()
    ensures Offset(DECISION, 0) == 0 && Offset(DECISION, 1) == 8 && Offset(DECISION, 2) == 16
    ensures forall i :: 3 <= i <= 19 ==> Offset(DECISION, i) == 17 + 8 * (i - 3)
    ensures forall i :: 19 <= i <= 23 ==> Offset(DECISION, i) == 145 + (i - 19)
  {
    assert Offset(DECISION, 1) == 8;
    assert Offset(DECISION, 2) == 16;
    assert Offset(DECISION, 3) == 17;
    EightsUpTo(19);
    assert Offset(DECISION, 20) == 146;
    assert Offset(DECISION, 21) == 147;
    assert Offset(DECISION, 22) == 148;
    assert Offset(DECISION, 23) == 149;
  }

  lemma {:induction false} EightsUpTo(n: nat)
    requires 3 <= n <= 19 && Offset(DECISION, 3) == 17
    ensures forall i :: 3 <= i <= n ==> Offset(DECISION, i) == 17 + 8 * (i - 3)
  {
    if n > 3 {
      EightsUpTo(n - 1);
      assert DECISION[n - 1] == 8;
    }
  }

  /** The payload of a decision, field by field. */
  lemma DecisionLayout(r: DecisionRecord)
    requires DecisionBounded(r)
    ensures
      var bs := DecisionBytes(r);
      |bs| == 149 && WordAt(bs, 0, 8) == Some(r.decision) && WordAt(bs, 8, 8) == Some(r.audit) && WordAt(bs, 16, 1) == Some(OutcomeCode(r.outcome)) &&
      WordAt(bs, 17, 8) == Some(r.request) && WordAt(bs, 25, 8) == Some(r.demand) && WordAt(bs, 33, 8) == Some(r.demandGeneration) &&
      WordAt(bs, 41, 8) == Some(r.attempt) && WordAt(bs, 49, 8) == Some(r.path) && WordAt(bs, 57, 8) == Some(r.granted) &&
      WordAt(bs, 65, 8) == Some(r.epoch) && WordAt(bs, 73, 8) == Some(r.incarnation) && WordAt(bs, 81, 8) == Some(r.decidedTick) &&
      WordAt(bs, 89, 8) == Some(r.fingerprint) && WordAt(bs, 97, 8) == Some(r.boundCapacity) && WordAt(bs, 105, 8) == Some(r.boundPolicy) &&
      WordAt(bs, 113, 8) == Some(r.boundQos) && WordAt(bs, 121, 8) == Some(r.boundPriority) && WordAt(bs, 129, 8) == Some(r.boundPath) &&
      WordAt(bs, 137, 8) == Some(r.boundReservation) && WordAt(bs, 145, 1) == Some(StateCode(r.state)) &&
      WordAt(bs, 146, 1) == Some(ReasonCode(r.reason)) && WordAt(bs, 147, 1) == Some(Bit(r.ledgerLive)) && WordAt(bs, 148, 1) == Some(Bit(r.restoredFromDisk))
  {
    DecisionFits(r);
    DecisionOffsets();
    FieldsSize(DecisionFields(r), DECISION);
    var vs := DecisionFields(r);
    forall i | 0 <= i < 23 ensures WordAt(FieldsBytes(vs, DECISION), Offset(DECISION, i), DECISION[i]) == Some(vs[i]) {
      FieldAt(vs, DECISION, i);
    }
  }

  // ------------------------------------------------------------------
  // Intents and releases
  // ------------------------------------------------------------------

  lemma SmallOffsets()
    ensures Offset(AMOUNT, 0) == 0 && Offset(AMOUNT, 1) == 8 && Offset(AMOUNT, 2) == 16
    ensures Offset(RELEASE_HEADER, 0) == 0 && Offset(RELEASE_HEADER, 1) == 8 && Offset(RELEASE_HEADER, 2) == 16 && Offset(RELEASE_HEADER, 3) == 17 && Offset(RELEASE_HEADER, 4) == 21
    ensures Offset(REVOCATION, 0) == 0 && Offset(REVOCATION, 1) == 8 && Offset(REVOCATION, 2) == 16 && Offset(REVOCATION, 3) == 24 && Offset(REVOCATION, 4) == 25
    ensures Offset(MARK, 0) == 0 && Offset(MARK, 1) == 8 && Offset(MARK, 2) == 16
  {
    assert Offset(AMOUNT, 1) == 8 && Offset(RELEASE_HEADER, 1) == 8 && Offset(REVOCATION, 1) == 8 && Offset(MARK, 1) == 8;
    assert Offset(RELEASE_HEADER, 2) == 16 && Offset(REVOCATION, 2) == 16 && Offset(MARK, 2) == 16;
    assert Offset(RELEASE_HEADER, 3) == 17 && Offset(REVOCATION, 3) == 24;
  }

  lemma {:induction false} EightByEight(ws: seq<nat>, n: nat)
    requires n <= |ws| && forall i :: 0 <= i < n ==> ws[i] == 8
    ensures forall i :: 0 <= i <= n ==> Offset(ws, i) == 8 * i
  {
    if n > 0 {
      EightByEight(ws, n - 1);
    }
  }

  lemma PrepareOffsets()
    ensures Offset(PREPARE_HEADER, 0) == 0 && Offset(PREPARE_HEADER, 1) == 8 && Offset(PREPARE_HEADER, 2) == 16 && Offset(PREPARE_HEADER, 3) == 24
    ensures Offset(PREPARE_HEADER, 4) == 32 && Offset(PREPARE_HEADER, 5) == 40 && Offset(PREPARE_HEADER, 6) == 48 && Offset(PREPARE_HEADER, 7) == 56
    ensures Offset(PREPARE_HEADER, 8) == 60
  {
    EightByEight(PREPARE_HEADER, 7);
  }

  /** The payload of an intent: seven words, a count, and the amounts. */
  lemma PrepareLayout(p: PrepareRecord, k: nat)
    requires PrepareBounded(p)
    ensures
      var bs := PrepareBytes(p);
      WordAt(bs, 0, 8) == Some(p.decision) && WordAt(bs, 8, 8) == Some(p.demand) && WordAt(bs, 16, 8) == Some(p.attempt) &&
      WordAt(bs, 24, 8) == Some(p.fingerprint) && WordAt(bs, 32, 8) == Some(p.epoch) && WordAt(bs, 40, 8) == Some(p.boundCapacity) &&
      WordAt(bs, 48, 8) == Some(p.path) && WordAt(bs, 56, 4) == Some(|p.amounts|) &&
      (k < |p.amounts| ==>
        WordAt(bs, 60 + 16 * k, 8) == Some(p.amounts[k].resource) && WordAt(bs, 60 + 16 * k + 8, 8) == Some(p.amounts[k].rate))
  {
    PrepareFits(p);
    AmountsFit(p.amounts);
    var vs, gs := PrepareFields(p), AmountGroups(p.amounts);
    var head, tail := FieldsBytes(vs, PREPARE_HEADER), GroupsBytes(gs, AMOUNT);
    PrepareOffsets();
    forall i | 0 <= i < 8 ensures WordAt(head + tail, Offset(PREPARE_HEADER, i), PREPARE_HEADER[i]) == Some(vs[i]) {
      FieldAt(vs, PREPARE_HEADER, i);
      SliceWithin(head, tail, Offset(PREPARE_HEADER, i), PREPARE_HEADER[i]);
    }
    if k < |p.amounts| {
      FieldsSize(vs, PREPARE_HEADER);
      SmallOffsets();
      StartOf(k);
      GroupAt(gs, AMOUNT, k, 0, 16);
      GroupAt(gs, AMOUNT, k, 1, 16);
      SliceOn(head, tail, 16 * k, 8);
      SliceOn(head, tail, 16 * k + 8, 8);
    }
  }

  lemma EntryOffsets()
    ensures Offset(ENTRY, 0) == 0 && Offset(ENTRY, 1) == 8 && Offset(ENTRY, 2) == 16 && Offset(ENTRY, 3) == 24 && Offset(ENTRY, 4) == 32
    ensures Offset(ENTRY, 5) == 40 && Offset(ENTRY, 6) == 48 && Offset(ENTRY, 7) == 56 && Offset(ENTRY, 8) == 57
  {
    EightByEight(ENTRY, 7);
  }

  /** The payload of a release: whose, in which epoch, why, a count, and the
      entries that went. */
  lemma ReleaseLayout(r: ReleaseRecord, k: nat)
    requires ReleaseBounded(r)
    ensures
      var bs := ReleaseBytes(r);
      WordAt(bs, 0, 8) == Some(r.decision) && WordAt(bs, 8, 8) == Some(r.epoch) && WordAt(bs, 16, 1) == Some(ReasonCode(r.reason)) &&
      WordAt(bs, 17, 4) == Some(|r.released|) &&
      (k < |r.released| ==> EntryLies(bs, 21 + 57 * k, r.released[k]))
  {
    ReleaseFits(r);
    var vs := ReleaseFields(r);
    var head, tail := FieldsBytes(vs, RELEASE_HEADER), GroupsBytes(EntryGroups(r.released), ENTRY);
    SmallOffsets();
    forall i | 0 <= i < 4 ensures WordAt(head + tail, Offset(RELEASE_HEADER, i), RELEASE_HEADER[i]) == Some(vs[i]) {
      FieldAt(vs, RELEASE_HEADER, i);
      SliceWithin(head, tail, Offset(RELEASE_HEADER, i), RELEASE_HEADER[i]);
    }
    if k < |r.released| {
      FieldsSize(vs, RELEASE_HEADER);
      EntryAt(head + tail, head, r.released, k);
    }
  }

  /** An entry lies at this offset. */
  ghost predicate EntryLies(bs: seq<byte>, at: nat, e: LedgerEntry) {
    WordAt(bs, at, 8) == Some(e.decision) && WordAt(bs, at + 8, 8) == Some(e.demand) && WordAt(bs, at + 16, 8) == Some(e.resource) &&
    WordAt(bs, at + 24, 8) == Some(e.amount) && WordAt(bs, at + 32, 8) == Some(e.path) && WordAt(bs, at + 40, 8) == Some(e.epoch) &&
    WordAt(bs, at + 48, 8) == Some(e.boundCapacity) && WordAt(bs, at + 56, 1) == Some(Bit(e.requiresRevalidation))
  }

  /** Field i of entry k. */
  lemma EntryPart(bs: seq<byte>, head: seq<byte>, released: seq<LedgerEntry>, k: nat, i: nat, at: nat, width: nat)
    requires bs == head + GroupsBytes(EntryGroups(released), ENTRY) && k < |released| && i < 8 && at == Offset(ENTRY, i) && width == ENTRY[i]
    requires GroupsFit(EntryGroups(released), ENTRY) && Offset(ENTRY, 8) == 57
    ensures WordAt(bs, |head| + 57 * k + at, width) == Some(EntryFields(released[k])[i])
  {
    StartOf(k);
    GroupAt(EntryGroups(released), ENTRY, k, i, 57);
    SliceOn(head, GroupsBytes(EntryGroups(released), ENTRY), 57 * k + at, width);
  }

  lemma EntryAt(bs: seq<byte>, head: seq<byte>, released: seq<LedgerEntry>, k: nat)
    requires k < |released| && forall i :: 0 <= i < |released| ==> released[i].decision <= MAX64
    requires bs == head + GroupsBytes(EntryGroups(released), ENTRY)
    ensures EntryLies(bs, |head| + 57 * k, released[k])
  {
    EntriesFit(released);
    EntryOffsets();
    EntryPart(bs, head, released, k, 0, 0, 8);
    EntryPart(bs, head, released, k, 1, 8, 8);
    EntryPart(bs, head, released, k, 2, 16, 8);
    EntryPart(bs, head, released, k, 3, 24, 8);
    EntryPart(bs, head, released, k, 4, 32, 8);
    EntryPart(bs, head, released, k, 5, 40, 8);
    EntryPart(bs, head, released, k, 6, 48, 8);
    EntryPart(bs, head, released, k, 7, 56, 1);
  }

  /** The payload of a revocation. */
  lemma RevocationLayout(v: RevocationRecord)
    requires RevocationBounded(v)
    ensures
      var bs := RevocationBytes(v);
      WordAt(bs, 0, 8) == Some(v.decision) && WordAt(bs, 8, 8) == Some(v.epoch) && WordAt(bs, 16, 8) == Some(v.audit) &&
      WordAt(bs, 24, 1) == Some(ReasonCode(v.reason)) && WordAt(bs, 25, 1) == Some(StateCode(v.state))
  {
    RevocationFits(v);
    SmallOffsets();
    forall i | 0 <= i < 5 ensures WordAt(RevocationBytes(v), Offset(REVOCATION, i), REVOCATION[i]) == Some(RevocationFields(v)[i]) {
      FieldAt(RevocationFields(v), REVOCATION, i);
    }
  }

  /** The payload of an audit mark. */
  lemma MarkLayout(m: AuditMarkRecord)
    requires MarkBounded(m)
    ensures
      var bs := MarkBytes(m);
      WordAt(bs, 0, 8) == Some(m.sequence) && WordAt(bs, 8, 8) == Some(m.epoch) && WordAt(bs, 16, 8) == Some(m.frames)
  {
    Widths();
    SmallOffsets();
    forall i | 0 <= i < 3 ensures WordAt(MarkBytes(m), Offset(MARK, i), MARK[i]) == Some(MarkFields(m)[i]) {
      FieldAt(MarkFields(m), MARK, i);
    }
  }

  // ------------------------------------------------------------------
  // Boot records and policies
  // ------------------------------------------------------------------

  lemma BootOffsets()
    ensures Offset(BOOT_TAIL, 0) == 0 && Offset(BOOT_TAIL, 1) == 8 && Offset(BOOT_TAIL, 2) == 16 && Offset(REVISION_WIDTH, 0) == 0 && Offset(REVISION_WIDTH, 1) == 2
  {
    EightByEight(BOOT_TAIL, 3);
  }

  /** The payload of a boot record: revision, the product's name with its length,
      and three words. */
  lemma BootLayout(r: BootRecord)
    requires BootBounded(r)
    ensures
      var bs, n := BootBytes(r), |r.product|;
      WordAt(bs, 0, 2) == Some(r.formatRevision) && WordAt(bs, 2, 2) == Some(n) && |bs| == 28 + n &&
      (forall i :: 0 <= i < n ==> bs[4 + i] == r.product[i] as int) &&
      WordAt(bs, 4 + n, 8) == Some(r.epoch) && WordAt(bs, 12 + n, 8) == Some(r.bootNonce) && WordAt(bs, 20 + n, 8) == Some(r.incarnation)
  {
    Widths();
    BootOffsets();
    var n := |r.product|;
    var rev, tail := FieldsBytes([r.formatRevision], REVISION_WIDTH), FieldsBytes(BootTail(r), BOOT_TAIL);
    FieldAt([r.formatRevision], REVISION_WIDTH, 0);
    FieldsSize([r.formatRevision], REVISION_WIDTH);
    FieldsSize(BootTail(r), BOOT_TAIL);
    SliceWithin(rev, TextBytes(r.product) + tail, 0, 2);
    assert BootBytes(r) == rev + (TextBytes(r.product) + tail);
    TextAt(rev, r.product, tail);
    forall i | 0 <= i < 3 ensures WordAt(BootBytes(r), |rev + TextBytes(r.product)| + Offset(BOOT_TAIL, i), 8) == Some(BootTail(r)[i]) {
      FieldAt(BootTail(r), BOOT_TAIL, i);
      SliceOn(rev + TextBytes(r.product), tail, Offset(BOOT_TAIL, i), 8);
    }
  }

  lemma TextAt(head: seq<byte>, text: string, tail: seq<byte>)
    requires TextBounded(text)
    ensures
      var bs := head + TextBytes(text) + tail;
      |TextBytes(text)| == 2 + |text| && WordAt(bs, |head|, 2) == Some(|text|) &&
      forall i :: 0 <= i < |text| ==> bs[|head| + 2 + i] == text[i] as int
  {
    Widths();
    LittleEndianValue(|text|, 2);
    var size := LittleEndian(|text|, 2);
    assert size[0..2] == size;
    SliceWithin(size, CharsBytes(text), 0, 2);
    SliceWithin(TextBytes(text), tail, 0, 2);
    SliceOn(head, TextBytes(text) + tail, 0, 2);
    assert head + TextBytes(text) + tail == head + (TextBytes(text) + tail);
  }

  lemma PolicyOffsets()
    ensures Offset(POLICY_HEAD, 0) == 0 && Offset(POLICY_HEAD, 1) == 8 && Offset(POLICY_HEAD, 2) == 16 && Offset(POLICY_HEAD, 3) == 24
    ensures Offset(POLICY_HEAD, 4) == 32 && Offset(POLICY_HEAD, 5) == 36 && Offset(POLICY_HEAD, 6) == 44 && Offset(POLICY_HEAD, 7) == 45
    ensures Offset(POLICY_HEAD, 8) == 46 && Offset(POLICY_HEAD, 9) == 47 && Offset(POLICY_HEAD, 10) == 48 && Offset(POLICY_HEAD, 11) == 49
    ensures Offset(POLICY_HEAD, 12) == 50 && Offset(POLICY_HEAD, 13) == 54
    ensures Offset(POLICY_TAIL, 0) == 0 && Offset(POLICY_TAIL, 1) == 4 && Offset(POLICY_TAIL, 2) == 8 && Offset(POLICY_TAIL, 3) == 12
    ensures Offset(ID, 0) == 0 && Offset(ID, 1) == 8 && Offset(COUNT, 0) == 0 && Offset(COUNT, 1) == 4
  {
    EightByEight(POLICY_HEAD, 4);
    assert Offset(POLICY_HEAD, 5) == 36;
    assert Offset(POLICY_HEAD, 6) == 44;
    assert Offset(POLICY_HEAD, 7) == 45;
    assert Offset(POLICY_HEAD, 8) == 46;
    assert Offset(POLICY_HEAD, 9) == 47;
    assert Offset(POLICY_HEAD, 10) == 48;
    assert Offset(POLICY_HEAD, 11) == 49;
    assert Offset(POLICY_HEAD, 12) == 50;
    assert Offset(POLICY_TAIL, 1) == 4;
    assert Offset(POLICY_TAIL, 2) == 8;
  }

  /** The payload of a policy begins with its scalars. */
  lemma PolicyLayout(p: Policy)
    requires PolicyBounded(p)
    ensures
      var bs := PolicyBytes(p);
      WordAt(bs, 0, 8) == Some(p.id) && WordAt(bs, 8, 8) == Some(p.generation) && WordAt(bs, 16, 8) == Some(p.epoch) &&
      WordAt(bs, 24, 8) == Some(p.observedTick) && WordAt(bs, 32, 4) == Some(p.headroomPermille) && WordAt(bs, 36, 8) == Some(p.headroomFloor) &&
      WordAt(bs, 44, 1) == Some(Bit(p.allowDegraded)) && WordAt(bs, 45, 1) == Some(Bit(p.allowPreemptible)) &&
      WordAt(bs, 46, 1) == Some(Bit(p.requirePathBinding)) && WordAt(bs, 47, 1) == Some(Bit(p.requireReservationReference)) &&
      WordAt(bs, 48, 1) == Some(Bit(p.allowPathSubstitution)) && WordAt(bs, 49, 1) == Some(ActionCode(p.onContention)) &&
      WordAt(bs, 50, 4) == Some(|p.allowedQos|)
  {
    PolicyOffsets();
    PolicyHeadAt(p, 0, 0, 8);
    PolicyHeadAt(p, 1, 8, 8);
    PolicyHeadAt(p, 2, 16, 8);
    PolicyHeadAt(p, 3, 24, 8);
    PolicyHeadAt(p, 4, 32, 4);
    PolicyHeadAt(p, 5, 36, 8);
    PolicyHeadAt(p, 6, 44, 1);
    PolicyHeadAt(p, 7, 45, 1);
    PolicyHeadAt(p, 8, 46, 1);
    PolicyHeadAt(p, 9, 47, 1);
    PolicyHeadAt(p, 10, 48, 1);
    PolicyHeadAt(p, 11, 49, 1);
    PolicyHeadAt(p, 12, 50, 4);
  }

  /** The count of the second class list lies between the lists, and the limits
      follow both. */
  lemma PolicyLimitsLayout(p: Policy)
    requires PolicyBounded(p)
    ensures
      var bs, at := PolicyBytes(p), 58 + 8 * |p.allowedQos| + 8 * |p.allowedPriorities|;
      WordAt(bs, 54 + 8 * |p.allowedQos|, 4) == Some(|p.allowedPriorities|) &&
      WordAt(bs, at, 4) == Some(p.maxExplanationConstraints) && WordAt(bs, at + 4, 4) == Some(p.maxExplanationBytes) &&
      WordAt(bs, at + 8, 4) == Some(p.maxEffectiveResources) && WordAt(bs, at + 12, 8) == Some(p.deferHorizonTicks)
  {
    PolicyOffsets();
    ListsSize(p);
    PolicyTailAt(p, 0, 0, 4);
    PolicyTailAt(p, 1, 4, 4);
    PolicyTailAt(p, 2, 8, 4);
    PolicyTailAt(p, 3, 12, 8);
    PolicyCountAt(p);
  }

  /** The three parts of the payload. */
  lemma PolicyParts(p: Policy, head: seq<byte>, tail: seq<byte>)
    requires head == FieldsBytes(PolicyHead(p), POLICY_HEAD) && tail == FieldsBytes(PolicyTail(p), POLICY_TAIL)
    ensures PolicyBytes(p) == head + (PolicyLists(p) + tail) && PolicyBytes(p) == head + PolicyLists(p) + tail && |head| == 54
  {
    PolicyOffsets();
    FieldsSize(PolicyHead(p), POLICY_HEAD);
  }

  lemma PolicyHeadAt(p: Policy, i: nat, at: nat, width: nat)
    requires PolicyBounded(p) && i < 13 && at == Offset(POLICY_HEAD, i) && width == POLICY_HEAD[i]
    ensures WordAt(PolicyBytes(p), at, width) == Some(PolicyHead(p)[i])
  {
    PolicyFits(p);
    var head, tail := FieldsBytes(PolicyHead(p), POLICY_HEAD), FieldsBytes(PolicyTail(p), POLICY_TAIL);
    PolicyParts(p, head, tail);
    FieldAt(PolicyHead(p), POLICY_HEAD, i);
    SliceWithin(head, PolicyLists(p) + tail, Offset(POLICY_HEAD, i), POLICY_HEAD[i]);
  }

  lemma PolicyTailAt(p: Policy, i: nat, at: nat, width: nat)
    requires PolicyBounded(p) && i < 4 && at == Offset(POLICY_TAIL, i) && width == POLICY_TAIL[i]
    ensures WordAt(PolicyBytes(p), 54 + |PolicyLists(p)| + at, width) == Some(PolicyTail(p)[i])
  {
    PolicyFits(p);
    var head, tail := FieldsBytes(PolicyHead(p), POLICY_HEAD), FieldsBytes(PolicyTail(p), POLICY_TAIL);
    PolicyParts(p, head, tail);
    FieldAt(PolicyTail(p), POLICY_TAIL, i);
    SliceOn(head + PolicyLists(p), tail, Offset(POLICY_TAIL, i), POLICY_TAIL[i]);
  }

  lemma PolicyCountAt(p: Policy)
    requires PolicyBounded(p)
    ensures WordAt(PolicyBytes(p), 54 + 8 * |p.allowedQos|, 4) == Some(|p.allowedPriorities|)
  {
    var head, tail := FieldsBytes(PolicyHead(p), POLICY_HEAD), FieldsBytes(PolicyTail(p), POLICY_TAIL);
    PolicyParts(p, head, tail);
    ListsSize(p);
    SliceWithin(PolicyLists(p), tail, 8 * |p.allowedQos|, 4);
    SliceOn(head, PolicyLists(p) + tail, 8 * |p.allowedQos|, 4);
  }

  /** The two class lists, with the count of the second between them. */
  function PolicyLists(p: Policy): seq<byte> {
    GroupsBytes(IdGroups(p.allowedQos), ID) + FieldsBytes([|p.allowedPriorities|], COUNT) + GroupsBytes(IdGroups(p.allowedPriorities), ID)
  }

  lemma IdsSize(ids: seq<u64>)
    ensures GroupsFit(IdGroups(ids), ID) && |GroupsBytes(IdGroups(ids), ID)| == 8 * |ids|
  {
    Widths();
    var gs := IdGroups(ids);
    forall i | 0 <= i < |gs| ensures Fits(gs[i], ID) {}
    PolicyOffsets();
    GroupsSize(gs, ID, 8);
    StartOf(|gs|);
  }

  lemma ListsSize(p: Policy)
    requires PolicyBounded(p)
    ensures |PolicyLists(p)| == 4 + 8 * |p.allowedQos| + 8 * |p.allowedPriorities|
    ensures WordAt(PolicyLists(p), 8 * |p.allowedQos|, 4) == Some(|p.allowedPriorities|)
  {
    Widths();
    PolicyOffsets();
    var qos, priorities := GroupsBytes(IdGroups(p.allowedQos), ID), GroupsBytes(IdGroups(p.allowedPriorities), ID);
    var count := FieldsBytes([|p.allowedPriorities|], COUNT);
    IdsSize(p.allowedQos);
    IdsSize(p.allowedPriorities);
    FieldsSize([|p.allowedPriorities|], COUNT);
    FieldAt([|p.allowedPriorities|], COUNT, 0);
    SliceWithin(count, priorities, 0, 4);
    SliceOn(qos, count + priorities, 0, 4);
    assert PolicyLists(p) == qos + (count + priorities);
  }

  /** The classes a policy lists. */
  lemma PolicyClassAt(p: Policy, k: nat)
    requires PolicyBounded(p)
    ensures k < |p.allowedQos| ==> WordAt(PolicyBytes(p), 54 + 8 * k, 8) == Some(p.allowedQos[k])
    ensures k < |p.allowedPriorities| ==> WordAt(PolicyBytes(p), 58 + 8 * |p.allowedQos| + 8 * k, 8) == Some(p.allowedPriorities[k])
  {
    var head, tail := FieldsBytes(PolicyHead(p), POLICY_HEAD), FieldsBytes(PolicyTail(p), POLICY_TAIL);
    PolicyParts(p, head, tail);
    ListsSize(p);
    if k < |p.allowedQos| {
      QosAt(p, k);
      SliceWithin(PolicyLists(p), tail, 8 * k, 8);
      SliceOn(head, PolicyLists(p) + tail, 8 * k, 8);
    }
    if k < |p.allowedPriorities| {
      PriorityAt(p, k);
      SliceWithin(PolicyLists(p), tail, 4 + 8 * |p.allowedQos| + 8 * k, 8);
      SliceOn(head, PolicyLists(p) + tail, 4 + 8 * |p.allowedQos| + 8 * k, 8);
    }
  }

  lemma IdAt(ids: seq<u64>, k: nat)
    requires k < |ids|
    ensures WordAt(GroupsBytes(IdGroups(ids), ID), 8 * k, 8) == Some(ids[k])
  {
    IdsSize(ids);
    PolicyOffsets();
    StartOf(k);
    GroupAt(IdGroups(ids), ID, k, 0, 8);
  }

  lemma QosAt(p: Policy, k: nat)
    requires k < |p.allowedQos|
    ensures WordAt(PolicyLists(p), 8 * k, 8) == Some(p.allowedQos[k])
  {
    var qos, priorities := GroupsBytes(IdGroups(p.allowedQos), ID), GroupsBytes(IdGroups(p.allowedPriorities), ID);
    var count := FieldsBytes([|p.allowedPriorities|], COUNT);
    IdAt(p.allowedQos, k);
    SliceWithin(qos, count, 8 * k, 8);
    SliceWithin(qos + count, priorities, 8 * k, 8);
  }

  lemma PriorityAt(p: Policy, k: nat)
    requires k < |p.allowedPriorities|
    ensures WordAt(PolicyLists(p), 4 + 8 * |p.allowedQos| + 8 * k, 8) == Some(p.allowedPriorities[k])
  {
    var qos, priorities := GroupsBytes(IdGroups(p.allowedQos), ID), GroupsBytes(IdGroups(p.allowedPriorities), ID);
    var count := FieldsBytes([|p.allowedPriorities|], COUNT);
    PolicyOffsets();
    IdsSize(p.allowedQos);
    FieldsSize([|p.allowedPriorities|], COUNT);
    IdAt(p.allowedPriorities, k);
    SliceOn(qos + count, priorities, 8 * k, 8);
  }

  // ------------------------------------------------------------------
  // Codes
  // ------------------------------------------------------------------

  const OUTCOMES := [
    Admit, AdmitDegraded, Defer, RejectCapacity, RejectPolicy, RejectObligation, RejectPath, RejectQoS, StaleInput, ConflictingInput, FencedClaimant]
  const STATES := [Fresh, Valid, Invalidated, Revoked, Expired, Ambiguous, StateUnknown]
  const REASONS := [
    NotRevoked, OperatorRequest, GenerationAdvance, CapacityReduction, PathRevoked, PolicyChange, ClaimantDeath, CoordinatorRestart, ObligationChange, ReasonExpired]

  /** Every enumerator is written as its position. */
  lemma CodesInOrder(o: Outcome, s: RevalidationState, r: RevocationReason, record: Record)
    ensures OutcomeCode(o) < |OUTCOMES| && OUTCOMES[OutcomeCode(o)] == o
    ensures StateCode(s) < |STATES| && STATES[StateCode(s)] == s
    ensures ReasonCode(r) < |REASONS| && REASONS[ReasonCode(r)] == r
    ensures KindOf(record) ==
      (match record
       case BootEpoch(_) => 1
       case PolicyConfig(_) => 2
       case AdmissionPrepare(_) => 3
       case AdmissionCommit(_) => 4
       case AdmissionRefused(_) => 5
       case LedgerRelease(_) => 6
       case Revocation(_) => 7
       case AuditMark(_) => 8)
  {}
}
