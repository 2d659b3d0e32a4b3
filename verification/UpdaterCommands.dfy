/** The updater's commands as functions of the disk: the specification the writer is
    proved against. A kill may fall between any two durable actions or inside a journal
    append; admissions and readmissions are decided by the environment. */
module UpdaterCommands {
  import opened Wrappers
  import opened Journal
  import opened Updater

  // The process dies after `budget` durable actions; with `tears`, inside the next append.
  datatype Kill = Kill(budget: nat, tears: bool)

  datatype Command =
    | Init(receipt: Option<Receipt>, trustBytes: string, retained: bool, readmitted: bool, kill: Kill)
    | Apply(receipt: Option<Receipt>, retained: bool, readmitted: bool, kill: Kill)
    | Resume(operation: Hash, admitted: bool, readmitted: bool, kill: Kill)
    | Finish(operation: Hash, admitted: bool, kill: Kill)

  /** What admission guarantees about a bundle that it lets through. */
  predicate Admissible(r: Receipt, floor: int, lastTime: int) {
    && r.artifact.Sha256? && r.metadata.Sha256? && r.manifest.Sha256?
    && IsCommit(r.sourceCommit)
    && 1 <= r.version <= MAX_INTEGER && floor < r.version
    && 0 <= r.verifiedAt <= MAX_INTEGER && lastTime <= r.verifiedAt
  }

  function RecordOf(r: Receipt, trust: Hash): Record {
    Record(0, Prepared, r.artifact, r.version, r.sourceCommit, r.metadata, r.verifiedAt, trust, r.manifest)
  }

  function Planned(d: Disk, operation: Hash, readmitted: bool): nat {
    if !Live(d) || |d.journal| > MAX_RECORDS || Head(d).record.metadata != operation then 0
    else if readmitted then Remaining(d)
    else ToSwitched(d)
  }

  function ContinueEffect(d: Disk, operation: Hash, readmitted: bool, kill: Kill): Disk {
    Halted(d, Planned(d, operation, readmitted), kill.budget, kill.tears)
  }

  function PrepareEffect(
    d: Disk, r: Receipt, trust: Hash, protocol: int, retained: bool, readmitted: bool, kill: Kill): Disk
  {
    if r.artifact in d.slots && d.slots[r.artifact] != r.manifest then d
    else
      var spare := kill.budget - (if r.artifact in d.slots then 0 else 1);
      if spare < 0 then d
      else
        var unpacked := d.(slots := d.slots[r.artifact := r.manifest]);
        if r.metadata in d.bundles || spare == 0 then unpacked
        else
          var kept := unpacked.(bundles := d.bundles + {r.metadata});
          if !retained then kept
          else if spare == 1 then if kill.tears then Tear(kept) else kept
          else
            ContinueEffect(AppendTo(kept, RecordOf(r, trust), protocol), r.metadata, readmitted,
                           Kill(spare - 2, kill.tears))
  }

  ghost function Effect(d: Disk, c: Command): Disk {
    match c
    case Init(receipt, trustBytes, retained, readmitted, kill) =>
      if !d.pristine || receipt == None || !Admissible(receipt.value, 0, 0) || kill.budget == 0 then d
      else if kill.budget == 1 then d.(pristine := false)
      else
        var trust := Sha256(Bytes(trustBytes));
        PrepareEffect(d.(pristine := false, trust := Some(trust)), receipt.value, trust, 1,
                      retained, readmitted, Kill(kill.budget - 2, kill.tears))
    case Apply(receipt, retained, readmitted, kill) =>
      var seen := Inspect(d);
      if seen.Denied? || !seen.stable || receipt == None || d.trust == None ||
         !Admissible(receipt.value, seen.highest, seen.lastTime) then d
      else PrepareEffect(d, receipt.value, d.trust.value, seen.protocol, retained, readmitted, kill)
    case Resume(operation, admitted, readmitted, kill) =>
      var seen := Inspect(d);
      if seen.Denied? || seen.stable || seen.operation != operation || !admitted then d
      else ContinueEffect(d, operation, readmitted, kill)
    case Finish(operation, admitted, kill) =>
      var seen := Inspect(d);
      if seen.Denied? || seen.stable || seen.operation != operation || !admitted then d
      else if PhaseIndex(seen.phase) < 2 then d
      else ContinueEffect(d, operation, true, kill)
  }

  /** A pending operation of this name. */
  predicate IsPending(seen: Inspection, operation: Hash) {
    seen.Observed? && !seen.stable && seen.operation == operation
  }

  /** Nothing is in the way of this bundle's slot and of its place under bundles/. */
  predicate Fills(d: Disk, r: Receipt, retained: bool) {
    && (r.artifact in d.slots ==> d.slots[r.artifact] == r.manifest)
    && r.metadata !in d.bundles && retained
  }

  /** Durable actions up to and including the PREPARED record. */
  function Unpacking(d: Disk, r: Receipt): nat {
    if r.artifact in d.slots then 2 else 3
  }

  /** The command goes on to reserve an operation, and its process lives at least until the
      PREPARED record is durable. */
  ghost predicate Reserves(d: Disk, c: Command) {
    match c
    case Init(receipt, _, retained, _, kill) =>
      && d.pristine && receipt.Some? && Admissible(receipt.value, 0, 0) && retained && kill.budget >= 5
    case Apply(receipt, retained, _, kill) =>
      && Inspect(d).Observed? && Inspect(d).stable && d.trust.Some? && receipt.Some?
      && Admissible(receipt.value, Inspect(d).highest, Inspect(d).lastTime)
      && Fills(d, receipt.value, retained) && kill.budget >= Unpacking(d, receipt.value)
    case _ => false
  }

  // ---------------------------------------------------------------------------
  // Iterating the memoryless machine.

  lemma {:induction false} IterateAdds(d: Disk, j: nat, k: nat)
    ensures Iterate(Iterate(d, j), k) == Iterate(d, j + k)
  {
    hide Advance;
    if k > 0 {
      IterateAdds(d, j, k - 1);
    }
  }

  lemma {:induction false} IterateStep(d: Disk, k: nat)
    ensures Iterate(Advance(d), k) == Iterate(d, k + 1)
  {
    hide Advance;
    if k > 0 {
      IterateStep(d, k - 1);
    }
  }

  lemma HaltedStep(d: Disk, total: nat, budget: nat, tears: bool)
    requires 0 < total && 0 < budget
    ensures Halted(d, total, budget, tears) == Halted(Advance(d), total - 1, budget - 1, tears)
  {
    hide Advance;
    IterateStep(d, total - 1);
    IterateStep(d, budget - 1);
  }

  lemma {:induction false} IterateKeeps(d: Disk, k: nat)
    requires Sound(d)
    ensures Sound(Iterate(d, k))
  {
    hide Advance, Sound;
    if k > 0 {
      IterateKeeps(d, k - 1);
      AdvanceKeeps(Iterate(d, k - 1));
    }
  }

  lemma {:induction false} IterateCounts(d: Disk, k: nat)
    requires Sound(d) && k <= Remaining(d)
    ensures Remaining(Iterate(d, k)) == Remaining(d) - k
    ensures ToSwitched(Iterate(d, k)) == (if k <= ToSwitched(d) then ToSwitched(d) - k else 0)
  {
    hide Advance, Sound, Remaining, ToSwitched;
    if k > 0 {
      IterateCounts(d, k - 1);
      IterateKeeps(d, k - 1);
      AdvanceCounts(Iterate(d, k - 1));
    }
  }

  lemma {:induction false} IterateSameOperation(d: Disk, k: nat)
    requires Sound(d) && k <= Remaining(d)
    ensures Live(Iterate(d, k)) && SameOperation(Head(Iterate(d, k)).record, Head(d).record)
    ensures Head(Iterate(d, k)).record.verifiedAt == Head(d).record.verifiedAt
  {
    hide Advance, Sound, Remaining, ToSwitched;
    SoundHead(d);
    if k > 0 {
      IterateSameOperation(d, k - 1);
      IterateCounts(d, k - 1);
      IterateKeeps(d, k - 1);
      AdvanceCounts(Iterate(d, k - 1));
    }
  }

  lemma PlannedFits(d: Disk, operation: Hash, readmitted: bool)
    ensures Planned(d, operation, readmitted) <= Remaining(d)
  {
  }

  /** After a kill the disk is sound, or sound but for one torn journal file. */
  lemma HaltedKeeps(d: Disk, total: nat, budget: nat, tears: bool)
    requires Sound(d) && total <= Remaining(d)
    ensures Kept(Halted(d, total, budget, tears))
    ensures !tears || total <= budget ==> Sound(Halted(d, total, budget, tears))
  {
    if total <= budget {
      IterateKeeps(d, total);
    } else {
      IterateKeeps(d, budget);
      TearIsTorn(Iterate(d, budget));
    }
  }

  lemma TearIsTorn(d: Disk)
    requires Sound(d) || (Unborn(d) && !d.pristine)
    ensures Torn(Tear(d))
  {
    var t := Tear(d);
    assert t.journal[..|t.journal| - 1] == d.journal;
    assert t.(journal := t.journal[..|t.journal| - 1]) == d;
  }

  /** A torn journal is refused by the reader, so no command changes the disk again. */
  lemma TornIsHeld(d: Disk, c: Command)
    requires Torn(d)
    ensures Inspect(d) == Denied
    ensures Effect(d, c) == d
  {
    var s := d.(journal := d.journal[..|d.journal| - 1]);
    assert d.journal[|d.journal| - 1].file == Undecodable("");
    assert !Decodes(d.journal);
  }

  // ---------------------------------------------------------------------------
  // Every command keeps the disk in one of the kept states.

  /** A disk on which a new operation may be reserved with receipt `r`. */
  ghost predicate CanPrepare(d: Disk, r: Receipt, protocol: int) {
    && !d.pristine && d.trust.Some? && d.trust.value.Sha256?
    && (if Unborn(d) then Admissible(r, 0, 0) && protocol == 1
        else
          && Sound(d) && Remaining(d) == 0 && |d.journal| <= MAX_RECORDS
          && Admissible(r, Head(d).record.version, Head(d).record.verifiedAt)
          && protocol == Protocol(Head(d)))
  }

  lemma PristineIsUnborn(d: Disk)
    requires Kept(d) && d.pristine
    ensures Unborn(d)
  {
  }

  lemma StableCanPrepare(d: Disk, r: Receipt)
    requires Kept(d) && Inspect(d).Observed? && Inspect(d).stable
    requires d.trust.Some? && Admissible(r, Inspect(d).highest, Inspect(d).lastTime)
    ensures CanPrepare(d, r, Inspect(d).protocol)
  {
    hide Sound, Inspect;
    KeptInspection(d);
    SoundInspection(d);
    SoundHead(d);
    SoundNotPristine(d);
  }

  lemma SoundNotPristine(d: Disk)
    requires Sound(d)
    ensures !d.pristine && d.trust.Some? && d.trust.value.Sha256? && d.journal != []
  {
    assert Fits(Entries(d.journal), |d.journal| - 1);
    assert Backed(d, Head(d).record);
  }

  /** Inspection accepts exactly the sound disks within the reader's cap. */
  lemma KeptInspection(d: Disk)
    requires Kept(d)
    ensures Inspect(d) != Denied <==> Sound(d) && |d.journal| <= MAX_RECORDS
    ensures Inspect(d) != Denied ==>
      && Inspect(d).stable == (Remaining(d) == 0)
      && Inspect(d).phase == Head(d).record.phase
      && Inspect(d).operation == Head(d).record.metadata
  {
    hide Sound;
    if Torn(d) {
      TornIsHeld(d, Finish(NotHex(""), false, Kill(0, false)));
    }
    if Sound(d) {
      SoundInspection(d);
    }
  }

  /** What unpacking and retaining leave before the PREPARED record. */
  function Stocked(d: Disk, r: Receipt): Disk {
    d.(slots := d.slots[r.artifact := r.manifest], bundles := d.bundles + {r.metadata})
  }

  lemma MoreStockIsFine(d: Disk, d': Disk)
    requires Sound(d) && d' == d.(slots := d'.slots, bundles := d'.bundles)
    requires d.bundles <= d'.bundles
    requires forall a :: a in d.slots ==> a in d'.slots && d'.slots[a] == d.slots[a]
    ensures Sound(d') && Head(d') == Head(d) && Remaining(d') == Remaining(d)
  {
    var es := Entries(d.journal);
    forall i | 0 <= i < |es| ensures Backed(d', es[i].record) {
      assert Backed(d, es[i].record);
    }
  }

  lemma NewOperationFits(d: Disk, r: Receipt, protocol: int)
    requires CanPrepare(d, r, protocol)
    ensures Live(d) || d.journal == []
    ensures var es := Entries(d.journal);
      && Follows(Before(es, |es|), |es|, NewEntry(d.journal, RecordOf(r, d.trust.value), protocol))
      && |es| % 6 == 0
      && (es != [] ==> InLanguage(es))
  {
    if d.journal != [] {
      SoundHead(d);
      assert Head(d).record.phase == Completed;
      assert |d.journal| % 6 == 0;
    }
  }

  /** The disk right after the PREPARED record of a new operation. */
  function PreparedOn(d: Disk, r: Receipt, protocol: int): Disk
    requires d.trust.Some?
  {
    AppendTo(Stocked(d, r), RecordOf(r, d.trust.value), protocol)
  }

  lemma PreparedEntries(d: Disk, r: Receipt, protocol: int)
    requires CanPrepare(d, r, protocol)
    ensures var es, e := Entries(d.journal), NewEntry(d.journal, RecordOf(r, d.trust.value), protocol);
      && Decodes(d.journal) && Decodes(PreparedOn(d, r, protocol).journal)
      && Entries(PreparedOn(d, r, protocol).journal) == es + [e]
      && |es| == |d.journal| && |es| % 6 == 0 && InLanguage(es + [e])
  {
    hide Follows, Sound, Remaining;
    NewOperationFits(d, r, protocol);
    EntriesSnoc(Stocked(d, r), RecordOf(r, d.trust.value), protocol);
    InLanguageSnoc(Entries(d.journal), NewEntry(d.journal, RecordOf(r, d.trust.value), protocol));
  }

  lemma PreparedBacked(d: Disk, r: Receipt, protocol: int, i: nat)
    requires CanPrepare(d, r, protocol)
    requires r.artifact in d.slots ==> d.slots[r.artifact] == r.manifest
    requires Decodes(PreparedOn(d, r, protocol).journal)
    requires i < |Entries(PreparedOn(d, r, protocol).journal)|
    ensures Backed(PreparedOn(d, r, protocol), Entries(PreparedOn(d, r, protocol).journal)[i].record)
  {
    hide Follows, InLanguage, Remaining, PointerFits, IndexFits;
    PreparedEntries(d, r, protocol);
    var es := Entries(d.journal);
    if i < |es| {
      SoundOrUnborn(d, r, protocol);
      assert Backed(d, es[i].record);
    }
  }

  lemma SoundOrUnborn(d: Disk, r: Receipt, protocol: int)
    requires CanPrepare(d, r, protocol) && d.journal != []
    ensures Sound(d) && protocol == Protocol(Head(d)) && Remaining(d) == 0
    ensures IndexFits(d, Entries(d.journal))
  {
  }

  lemma PreparedPointer(d: Disk, r: Receipt, protocol: int)
    requires CanPrepare(d, r, protocol)
    requires Decodes(PreparedOn(d, r, protocol).journal)
    requires Entries(PreparedOn(d, r, protocol).journal) != []
    ensures PointerFits(PreparedOn(d, r, protocol), Entries(PreparedOn(d, r, protocol).journal))
  {
    hide Follows, InLanguage, Backed, Remaining, Admissible, IndexFits;
    PreparedEntries(d, r, protocol);
    var es, e := Entries(d.journal), NewEntry(d.journal, RecordOf(r, d.trust.value), protocol);
    assert (es + [e])[..|es|] == es;
    if d.journal != [] {
      SoundOrUnborn(d, r, protocol);
    }
  }

  lemma PreparedIndex(d: Disk, r: Receipt, protocol: int)
    requires CanPrepare(d, r, protocol)
    requires Decodes(PreparedOn(d, r, protocol).journal)
    requires Entries(PreparedOn(d, r, protocol).journal) != []
    ensures IndexFits(PreparedOn(d, r, protocol), Entries(PreparedOn(d, r, protocol).journal))
  {
    hide Follows, InLanguage, Backed, Remaining, Admissible, PointerFits, Sound;
    PreparedEntries(d, r, protocol);
    var es, e := Entries(d.journal), NewEntry(d.journal, RecordOf(r, d.trust.value), protocol);
    assert (es + [e])[..|es|] == es;
    if d.journal != [] {
      SoundOrUnborn(d, r, protocol);
      SoundHead(d);
    } else {
      EmptyIsUnborn(d, r, protocol);
    }
    assert Protocol(e) == protocol;
    assert protocol == 2 ==> OldRows(es + [e]) == OldRows(es);
  }

  /** Reserving a new operation on a stable root, or the first one, is sound. */
  lemma PreparedIsSound(d: Disk, r: Receipt, protocol: int)
    requires CanPrepare(d, r, protocol)
    requires r.artifact in d.slots ==> d.slots[r.artifact] == r.manifest
    ensures Sound(PreparedOn(d, r, protocol)) && Remaining(PreparedOn(d, r, protocol)) > 0
    ensures Head(PreparedOn(d, r, protocol)).record.metadata == r.metadata
  {
    hide Follows, InLanguage, Backed, PointerFits, IndexFits;
    PreparedEntries(d, r, protocol);
    PreparedPointer(d, r, protocol);
    PreparedIndex(d, r, protocol);
    var s := PreparedOn(d, r, protocol);
    forall i | 0 <= i < |Entries(s.journal)| ensures Backed(s, Entries(s.journal)[i].record) {
      PreparedBacked(d, r, protocol, i);
    }
  }

  /** A completed journal within the cap has room for a record. */
  lemma PrepareRoom(d: Disk, r: Receipt, protocol: int)
    requires CanPrepare(d, r, protocol)
    ensures |PreparedOn(d, r, protocol).journal| == |d.journal| + 1 <= MAX_RECORDS
  {
    hide Follows, InLanguage, Sound, Admissible;
    NewOperationFits(d, r, protocol);
    assert |Entries(d.journal)| == |d.journal|;
  }

  lemma FirstPlan(d: Disk, r: Receipt)
    requires CanPrepare(d, r, 1) && Unborn(d)
    ensures Remaining(PreparedOn(d, r, 1)) == 7
  {
    hide Follows, InLanguage, Sound, Admissible;
    PreparedEntries(d, r, 1);
  }

  lemma {:induction false} IterateLength(d: Disk, k: nat)
    ensures |Iterate(d, k).journal| <= |d.journal| + k
  {
    hide NextAction, OldRows;
    if k > 0 {
      IterateLength(d, k - 1);
    }
  }

  /** The first operation never comes near the cap. */
  lemma FirstLength(d: Disk, r: Receipt, retained: bool, readmitted: bool, kill: Kill)
    requires CanPrepare(d, r, 1) && Unborn(d)
    ensures |PrepareEffect(d, r, d.trust.value, 1, retained, readmitted, kill).journal| <= MAX_RECORDS
  {
    hide Sound, Iterate, Remaining, NextAction, Planned;
    FirstPlan(d, r);
    var s := PreparedOn(d, r, 1);
    PlannedFits(s, r.metadata, readmitted);
    var spare := kill.budget - (if r.artifact in d.slots then 0 else 1);
    if spare >= 2 {
      IterateLength(s, Planned(s, r.metadata, readmitted));
      IterateLength(s, spare - 2);
    }
  }

  /** Every stop before the first record is kept, torn or not. */
  lemma StockIsKept(d: Disk, r: Receipt, protocol: int)
    requires CanPrepare(d, r, protocol)
    requires r.artifact in d.slots ==> d.slots[r.artifact] == r.manifest
    ensures d.trust.Some? && Kept(d) && Kept(d.(slots := d.slots[r.artifact := r.manifest]))
    ensures Kept(Stocked(d, r)) && Kept(Tear(Stocked(d, r)))
  {
    hide Sound, Tear, Remaining, Torn;
    if d.journal != [] {
      SoundOrUnborn(d, r, protocol);
      MoreStockIsFine(d, d.(slots := d.slots[r.artifact := r.manifest]));
      MoreStockIsFine(d, Stocked(d, r));
    } else {
      EmptyIsUnborn(d, r, protocol);
    }
    TearIsTorn(Stocked(d, r));
  }

  lemma EmptyIsUnborn(d: Disk, r: Receipt, protocol: int)
    requires CanPrepare(d, r, protocol) && d.journal == []
    ensures Unborn(d) && !d.pristine && protocol == 1
  {
  }

  lemma PrepareKeeps(
    d: Disk, r: Receipt, protocol: int, retained: bool, readmitted: bool, kill: Kill)
    requires CanPrepare(d, r, protocol)
    ensures Kept(PrepareEffect(d, r, d.trust.value, protocol, retained, readmitted, kill))
  {
    hide Kept, Halted, Planned, AppendTo, Tear, CanPrepare;
    if r.artifact in d.slots ==> d.slots[r.artifact] == r.manifest {
      StockIsKept(d, r, protocol);
      PreparedIsSound(d, r, protocol);
      var s := PreparedOn(d, r, protocol);
      PlannedFits(s, r.metadata, readmitted);
      var spare := kill.budget - (if r.artifact in d.slots then 0 else 1);
      if spare >= 2 {
        HaltedKeeps(s, Planned(s, r.metadata, readmitted), spare - 2, kill.tears);
      }
    } else {
      CanPrepareIsKept(d, r, protocol);
    }
  }

  lemma CanPrepareIsKept(d: Disk, r: Receipt, protocol: int)
    requires CanPrepare(d, r, protocol)
    ensures Kept(d)
  {
  }

  /** Whatever the command, its arguments, the admissions and the kill point. */
  lemma EffectKeeps(d: Disk, c: Command)
    requires Kept(d)
    ensures Kept(Effect(d, c))
  {
    hide Sound, Inspect, Halted, Planned, PrepareEffect, Remaining;
    KeptInspection(d);
    match c
    case Init(receipt, trustBytes, retained, readmitted, kill) =>
      if d.pristine && receipt.Some? && Admissible(receipt.value, 0, 0) {
        PristineIsUnborn(d);
        var trust := Sha256(Bytes(trustBytes));
        if kill.budget >= 2 {
          PrepareKeeps(d.(pristine := false, trust := Some(trust)), receipt.value, 1,
                       retained, readmitted, Kill(kill.budget - 2, kill.tears));
        }
      }
    case Apply(receipt, retained, readmitted, kill) =>
      if Inspect(d).Observed? && Inspect(d).stable && receipt.Some? && d.trust.Some? &&
         Admissible(receipt.value, Inspect(d).highest, Inspect(d).lastTime) {
        StableCanPrepare(d, receipt.value);
        PrepareKeeps(d, receipt.value, Inspect(d).protocol, retained, readmitted, kill);
      }
    case Resume(operation, admitted, readmitted, kill) =>
      ContinueKeeps(d, operation, readmitted, kill);
    case Finish(operation, admitted, kill) =>
      ContinueKeeps(d, operation, true, kill);
  }

  lemma ContinueKeeps(d: Disk, operation: Hash, readmitted: bool, kill: Kill)
    ensures Sound(d) ==> Kept(ContinueEffect(d, operation, readmitted, kill))
  {
    if Sound(d) {
      PlannedFits(d, operation, readmitted);
      HaltedKeeps(d, Planned(d, operation, readmitted), kill.budget, kill.tears);
    }
  }
}
