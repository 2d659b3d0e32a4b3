/** The protected root directory and the code that writes it. Each method does what the
    updater does, one durable action at a time, and is proved against the commands'
    specification for every point at which the process can be killed. */
module UpdaterRoot {
  import opened Wrappers
  import opened Journal
  import opened Updater
  import opened UpdaterCommands

  class Root {
    var pristine: bool
    var trust: Option<Hash>
    var slots: map<Hash, Hash>
    var bundles: set<Hash>
    var journal: seq<Named>
    var pointer: Option<Hash>
    var index: Option<IndexFile>

    // How many more durable actions the running process performs before it is killed.
    var budget: nat
    var tears: bool

    ghost function Disk(): Disk
      reads this
    {
      Updater.Disk(pristine, trust, slots, bundles, journal, pointer, index)
    }

    /** Every state the updater can leave the root in. */
    ghost predicate Valid()
      reads this
    {
      Kept(Disk())
    }

    constructor ()
      ensures Valid() && Disk() == Updater.Disk(true, None, map[], {}, [], None, None)
    {
      pristine, trust, slots, bundles := true, None, map[], {};
      journal, pointer, index := [], None, None;
      budget, tears := 0, false;
    }

    predicate HoldsSlot(artifact: Hash, manifest: Hash)
      reads this
      ensures HoldsSlot(artifact, manifest) <==> SlotIntact(Disk(), artifact, manifest)
    {
      artifact.Sha256? && artifact in slots && slots[artifact] == manifest
    }

    // The newest completed record of an artifact.
    static method FindPrior(es: seq<Entry>, artifact: Hash) returns (prior: Option<Record>)
      ensures prior == LastCompleted(es, artifact)
    {
      var k := |es|;
      assert es[..|es|] == es;
      while k > 0 && !(es[k - 1].record.phase == Completed && es[k - 1].record.artifact == artifact)
        invariant 0 <= k <= |es|
        invariant LastCompleted(es, artifact) == LastCompleted(es[..k], artifact)
      {
        assert es[..k][..k - 1] == es[..k - 1];
        k := k - 1;
      }
      return if k == 0 then None else Some(es[k - 1].record);
    }

    method Examine() returns (r: Inspection)
      ensures r == Inspect(Disk())
    {
      hide InLanguage, Decodes, SlotIntact, HoldsSlot, LastCompleted, OldRows, MaxVersion, MaxTime;
      var read := ReadJournal(journal);
      if read == None {
        return Denied;
      }
      var es := read.value;
      var head := es[|es| - 1];
      var latest := head.record;
      if trust != Some(latest.trust) {
        return Denied;
      }
      if !HoldsSlot(latest.artifact, latest.manifest) {
        return Denied;
      }
      if pointer.Some? && pointer.value.NotHex? {
        return Denied;
      }
      var selected := pointer == Some(latest.artifact);
      if pointer.Some? && !selected {
        var prior := FindPrior(es, pointer.value);
        if prior == None || !HoldsSlot(prior.value.artifact, prior.value.manifest) {
          return Denied;
        }
      }
      var completed := latest.phase == Completed;
      if completed && !selected {
        return Denied;
      }
      var retained := CollectOld(es);
      if Protocol(head) == 2 && index != Some(Rows(retained)) {
        return Denied;
      }
      var highest, lastTime := Maxima(es);
      return Observed(completed, latest.phase, Protocol(head), |es|, DigestOf(head), latest.metadata,
                      highest, lastTime, latest.artifact, selected, pointer);
    }

    static method CollectOld(es: seq<Entry>) returns (rows: seq<Row>)
      ensures rows == OldRows(es)
    {
      rows := [];
      for i := 0 to |es|
        invariant rows == OldRows(es[..i])
      {
        assert es[..i + 1][..i] == es[..i];
        if Protocol(es[i]) == 1 {
          rows := rows + [Row(es[i].record.ordinal, DigestOf(es[i]))];
        }
      }
      assert es[..|es|] == es;
    }

    static method Maxima(es: seq<Entry>) returns (highest: int, lastTime: int)
      requires es != []
      ensures highest == MaxVersion(es) && lastTime == MaxTime(es)
    {
      highest, lastTime := es[0].record.version, es[0].record.verifiedAt;
      for i := 1 to |es|
        invariant highest == MaxVersion(es[..i]) && lastTime == MaxTime(es[..i])
      {
        assert es[..i + 1][..i] == es[..i];
        if es[i].record.version > highest {
          highest := es[i].record.version;
        }
        if es[i].record.verifiedAt > lastTime {
          lastTime := es[i].record.verifiedAt;
        }
      }
      assert es[..|es|] == es;
    }

    /** The next journal file, created exclusively; a kill may leave it empty. */
    method Append(record: Record, protocol: int) returns (alive: bool)
      modifies this
      ensures alive <==> old(budget) > 0
      ensures alive ==> budget == old(budget) - 1
      ensures tears == old(tears)
      ensures Disk() == if alive then AppendTo(old(Disk()), record, protocol)
                        else if tears then Tear(old(Disk())) else old(Disk())
    {
      var previous := None;
      if journal != [] {
        previous := Some(FileDigest(journal[|journal| - 1].file));
      }
      if budget == 0 {
        if tears {
          journal := journal + [Named(|journal| + 1, Undecodable(""))];
        }
        return false;
      }
      budget := budget - 1;
      var entry := Entry("", if protocol == 1 then V1 else V2, previous, record.(ordinal := |journal| + 1));
      journal := journal + [Named(|journal| + 1, Decoded(entry))];
      return true;
    }

    /** Publishes the index of the protocol-1 records, or finds the same bytes published. */
    method MigrateJournal(protocol: int) returns (alive: bool, accepted: bool)
      requires Sound(Disk()) && |journal| <= MAX_RECORDS
      requires protocol == Protocol(Head(Disk())) && Head(Disk()).record.phase == MigrationIntent
      modifies this
      ensures accepted && tears == old(tears)
      ensures NextAction(old(Disk())) == Publish && old(budget) > 0 ==>
        alive && budget == old(budget) - 1 && Disk() == Advance(old(Disk()))
      ensures NextAction(old(Disk())) == Publish && old(budget) == 0 ==> !alive && Disk() == old(Disk())
      ensures NextAction(old(Disk())) != Publish ==> alive && budget == old(budget) && Disk() == old(Disk())
      ensures alive ==> Decodes(journal) && IndexLists(Disk())
    {
      SoundHead(Disk());
      assert Accepts(journal);
      hide Sound, InLanguage, IndexLists;
      IndexListsIff(Disk());
      IndexListsIff(Disk().(index := Some(Rows(OldRows(Entries(journal))))));
      if protocol == 2 {
        return true, true;
      }
      var read := ReadJournal(journal);
      var retained := CollectOld(read.value);
      if index.Some? {
        return true, index.value == Rows(retained);
      }
      if budget == 0 {
        return false, true;
      }
      budget := budget - 1;
      index := Some(Rows(retained));
      return true, true;
    }

    /** Where a running process stands: its local record is the head of the journal, and
        what it still plans to do leads to `goal`. */
    ghost predicate Pending(goal: Disk, readmitted: bool, record: Record, protocol: int)
      reads this
    {
      && Sound(Disk())
      && record.(ordinal := |journal|) == Head(Disk()).record && protocol == Protocol(Head(Disk()))
      && goal == Halted(Disk(), Plan(Disk(), readmitted), budget, tears)
    }

    ghost function Left(): nat
      reads this
    {
      Remaining(Disk())
    }

    /** The head of the journal, as the source reads it back before it continues. */
    method CurrentRecord(ghost readmitted: bool) returns (read: bool, record: Record, protocol: int)
      requires Sound(Disk())
      ensures read <==> |journal| <= MAX_RECORDS
      ensures read ==>
        && record == Head(Disk()).record
        && Pending(Halted(Disk(), Plan(Disk(), readmitted), budget, tears), readmitted, record, protocol)
    {
      SoundHead(Disk());
      assert Fits(Entries(journal), |journal| - 1);
      hide Sound, Halted, Remaining, ToSwitched, InLanguage, OldRows, Backed;
      var r := ReadJournal(journal);
      if r == None {
        return false, Record(0, Prepared, NotHex(""), 0, "", NotHex(""), 0, NotHex(""), NotHex("")), 0;
      }
      var head := r.value[|r.value| - 1];
      return true, head.record, Protocol(head);
    }

    /** Moves the local record to its next phase and appends it. */
    method Enter(record: Record, phase: Phase, protocol: int, ghost goal: Disk, ghost readmitted: bool)
      returns (alive: bool, next: Record)
      requires Live(Disk()) && Pending(goal, readmitted, record, Protocol(Head(Disk())))
      requires NextAction(Disk()) == Action.Append(phase, protocol) && Plan(Disk(), readmitted) > 0
      modifies this
      ensures alive <==> old(budget) > 0
      ensures !alive ==> Disk() == goal
      ensures alive ==>
        && next == record.(phase := phase) && Pending(goal, readmitted, next, protocol)
        && budget == old(budget) - 1 && Left() == old(Left()) - 1
        && |journal| == old(|journal|) + 1 && pointer == old(pointer) && index == old(index)
    {
      hide Sound, Advance, Remaining, ToSwitched;
      next := record.(phase := phase);
      AppendStep(Disk(), readmitted, budget, tears, next, protocol);
      alive := Append(next, protocol);
    }

    /** Replaces the `current` link unless it already selects the target. */
    method MovePointer(record: Record, protocol: int, ghost goal: Disk, ghost readmitted: bool)
      returns (alive: bool)
      requires Pending(goal, readmitted, record, protocol) && record.phase == SwitchIntent
      modifies this
      ensures !alive ==> Disk() == goal
      ensures alive ==>
        && Pending(goal, readmitted, record, protocol) && pointer == Some(record.artifact)
        && budget - Left() == old(budget - Left())
      ensures old(Left() <= budget) ==> alive
      ensures journal == old(journal)
    {
      hide Sound, Advance, Remaining, ToSwitched, Halted, InLanguage, Backed, OldRows;
      SoundHead(Disk());
      if pointer != Some(record.artifact) {
        FieldStep(Disk(), readmitted, budget, tears);
        if budget == 0 {
          return false;
        }
        budget := budget - 1;
        pointer := Some(record.artifact);
      }
      return true;
    }

    /** Publishes the index if need be and records MIGRATED under protocol 2. */
    method Migrate(record: Record, protocol: int, ghost goal: Disk) returns (alive: bool, next: Record)
      requires Pending(goal, true, record, protocol) && record.phase == MigrationIntent
      requires |journal| <= MAX_RECORDS
      modifies this
      ensures alive <==> old(Left() - 1 <= budget)
      ensures !alive ==> Disk() == goal
      ensures alive ==>
        && next == record.(phase := Migrated) && Pending(goal, true, next, 2)
        && budget - Left() == old(budget - Left()) && Left() == 1
        && |journal| == old(|journal|) + 1
    {
      hide Sound, Advance, Halted;
      SoundHead(Disk());
      next := record;
      if NextAction(Disk()) == Publish {
        FieldStep(Disk(), true, budget, tears);
      }
      var accepted;
      alive, accepted := MigrateJournal(protocol);
      if alive {
        SoundHead(Disk());
        alive, next := Enter(record, Migrated, 2, goal, true);
      }
    }

    /** The selected executable completes the transition under the same lock. */
    method FinishOperation(operation: Hash) returns (o: Outcome)
      requires Sound(Disk()) && |journal| <= MAX_RECORDS && Left() > 0
      requires Head(Disk()).record.metadata == operation
      modifies this
      ensures Disk() == if ToSwitched(old(Disk())) > 0 then old(Disk())
                        else Halted(old(Disk()), old(Left()), old(budget), old(tears))
      ensures o.Finished? <==>
        ToSwitched(old(Disk())) == 0 && old(Left() <= budget) && |journal| <= MAX_RECORDS
      ensures o.Finished? ==> o.observed == Inspect(Disk()) && o.observed.Observed? && o.observed.stable
    {
      hide Sound, Advance, Remaining, ToSwitched, Inspect, Halted;
      SoundHead(Disk());
      PlanFacts(Disk(), true);
      ghost var goal := Halted(Disk(), Left(), budget, tears);
      var read, record, protocol := CurrentRecord(true);
      if !read || record.metadata != operation || !(record.phase in {Switched, MigrationIntent, Migrated}) {
        return DeniedOrHeld;
      }
      if pointer != Some(record.artifact) || protocol > 2 {
        return DeniedOrHeld;
      }
      o := FinishFrom(record, protocol, goal);
    }

    method FinishFrom(record: Record, protocol: int, ghost goal: Disk) returns (o: Outcome)
      requires Pending(goal, true, record, protocol) && |journal| <= MAX_RECORDS
      requires record.phase in {Switched, MigrationIntent, Migrated}
      modifies this
      ensures Disk() == goal
      ensures o.Finished? <==> old(Left() <= budget) && |journal| <= MAX_RECORDS
      ensures o.Finished? ==> o.observed == Inspect(Disk()) && o.observed.Observed? && o.observed.stable
    {
      hide Sound, Advance, Remaining, ToSwitched, Inspect, Halted, AppendTo, InLanguage, Backed, OldRows;
      var alive, next, version := true, record, protocol;
      SoundHead(Disk());
      PlanFacts(Disk(), true);
      if next.phase == Switched {
        alive, next := Enter(next, MigrationIntent, version, goal, true);
        if !alive {
          return Killed;
        }
      }
      SoundHead(Disk());
      PlanFacts(Disk(), true);
      if next.phase == MigrationIntent {
        alive, next := Migrate(next, version, goal);
        if !alive {
          return Killed;
        }
        version := 2;
      }
      SoundHead(Disk());
      PlanFacts(Disk(), true);
      alive, next := Enter(next, Completed, version, goal, true);
      if !alive {
        return Killed;
      }
      PlanFacts(Disk(), true);
      SoundInspection(Disk());
      var seen := Examine();
      return if seen.Denied? then DeniedOrHeld else Finished(seen);
    }

    /** `finish` as a command: inspect, admit the retained bundle again, complete. */
    method RunFinish(operation: Hash, admitted: bool) returns (o: Outcome)
      requires Valid()
      modifies this
      ensures Valid()
      ensures Disk() == Effect(old(Disk()), Command.Finish(operation, admitted, Kill(old(budget), old(tears))))
      ensures o.Finished? ==> o.observed == Inspect(Disk()) && o.observed.Observed? && o.observed.stable
      ensures o.Finished? <==>
        && old(IsPending(Inspect(Disk()), operation)) && admitted
        && ToSwitched(old(Disk())) == 0 && old(Left() <= budget) && |journal| <= MAX_RECORDS
    {
      hide Sound, Inspect, Halted, Remaining, ToSwitched;
      KeptInspection(Disk());
      EffectKeeps(Disk(), Command.Finish(operation, admitted, Kill(budget, tears)));
      var seen := Examine();
      if seen.Denied? || seen.stable || seen.operation != operation || !admitted {
        return DeniedOrHeld;
      }
      PlanFacts(Disk(), true);
      SoundInspection(Disk());
      SoundHead(Disk());
      o := FinishOperation(operation);
    }

    /** From SWITCH_INTENT: the pointer, then SWITCHED. */
    method SwitchFromIntent(record: Record, protocol: int, ghost goal: Disk, ghost readmitted: bool)
      returns (alive: bool, next: Record)
      requires Pending(goal, readmitted, record, protocol) && record.phase == SwitchIntent
      modifies this
      ensures !alive ==> Disk() == goal && old(budget < Left())
      ensures alive ==>
        && next == record.(phase := Switched) && Pending(goal, readmitted, next, protocol)
        && budget - Left() == old(budget - Left()) && |journal| == old(|journal|) + 1
    {
      hide Sound, Advance, Remaining, ToSwitched, Halted, NextAction;
      next := record;
      alive := MovePointer(record, protocol, goal, readmitted);
      if alive {
        SoundHead(Disk());
        PlanFacts(Disk(), readmitted);
        NextAppend(Disk());
        alive, next := Enter(record, Switched, protocol, goal, readmitted);
      }
    }

    /** SWITCH_INTENT, if the operation has got no further than PREPARED. */
    method SwitchFromPrepared(start: Record, protocol: int, ghost goal: Disk, ghost readmitted: bool)
      returns (alive: bool, record: Record)
      requires Pending(goal, readmitted, start, protocol)
      modifies this
      ensures !alive ==> Disk() == goal && old(budget < Left())
      ensures alive ==>
        && record == (if start.phase == Prepared then start.(phase := SwitchIntent) else start)
        && Pending(goal, readmitted, record, protocol) && budget - Left() == old(budget - Left())
        && |journal| == old(|journal|) + if start.phase == Prepared then 1 else 0
    {
      hide Sound, Advance, Remaining, ToSwitched, Halted, NextAction, InLanguage, Backed, OldRows;
      alive, record := true, start;
      if record.phase == Prepared {
        SoundHead(Disk());
        PlanFacts(Disk(), readmitted);
        NextAppend(Disk());
        alive, record := Enter(record, SwitchIntent, protocol, goal, readmitted);
      }
    }

    /** SWITCH_INTENT, the pointer, SWITCHED: whichever of them is still missing. */
    method Switch(start: Record, protocol: int, ghost goal: Disk, ghost readmitted: bool)
      returns (alive: bool)
      requires Pending(goal, readmitted, start, protocol) && start.phase != Completed
      modifies this
      ensures !alive ==> Disk() == goal && old(budget < Left())
      ensures alive ==>
        && Sound(Disk()) && goal == Halted(Disk(), Plan(Disk(), readmitted), budget, tears)
        && ToSwitched(Disk()) == 0 && Left() > 0 && budget - Left() == old(budget - Left())
        && Live(Disk()) && Head(Disk()).record.metadata == start.metadata
        && (old(|journal|) <= MAX_RECORDS ==> |journal| <= MAX_RECORDS)
    {
      hide Sound, Advance, Remaining, ToSwitched, Halted, NextAction, AppendTo, PhaseAt, InLanguage, Backed, OldRows;
      var record;
      SoundHead(Disk());
      if |journal| <= MAX_RECORDS {
        CapRoom(|journal|);
      }
      alive, record := SwitchFromPrepared(start, protocol, goal, readmitted);
      if !alive {
        return;
      }
      if record.phase == SwitchIntent {
        alive, record := SwitchFromIntent(record, protocol, goal, readmitted);
        if !alive {
          return;
        }
      }
      SoundHead(Disk());
      PlanFacts(Disk(), readmitted);
      return true;
    }

    /** The rest of the operation, read off the journal: switch, then run the selected
        executable's `finish`, which admits the retained bundle once more. */
    method SwitchAndExec(operation: Hash, readmitted: bool) returns (o: Outcome)
      requires Sound(Disk()) && Left() > 0
      modifies this
      ensures Disk() == ContinueEffect(old(Disk()), operation, readmitted, Kill(old(budget), old(tears)))
      ensures o.Finished? ==> o.observed == Inspect(Disk()) && o.observed.Observed? && o.observed.stable
      ensures o.Finished? <==>
        && old(|journal| <= MAX_RECORDS) && Head(old(Disk())).record.metadata == operation
        && readmitted && old(Left() <= budget) && |journal| <= MAX_RECORDS
    {
      hide Sound, Advance, Remaining, ToSwitched, Inspect, Halted, NextAction, AppendTo, InLanguage, Backed, OldRows;
      SoundHead(Disk());
      PlanFacts(Disk(), readmitted);
      ghost var goal := Halted(Disk(), Plan(Disk(), readmitted), budget, tears);
      var read, record, protocol := CurrentRecord(readmitted);
      if !read || record.metadata != operation {
        return DeniedOrHeld;
      }
      var alive := Switch(record, protocol, goal, readmitted);
      if !alive {
        return Killed;
      }
      SoundHead(Disk());
      PlanFacts(Disk(), readmitted);
      KeptInspection(Disk());
      var seen := Examine();
      if seen.Denied? {
        return DeniedOrHeld;
      }
      o := RunFinish(operation, readmitted);
    }

    method Resume(operation: Hash, admitted: bool, readmitted: bool) returns (o: Outcome)
      requires Valid()
      modifies this
      ensures Valid()
      ensures Disk() ==
        Effect(old(Disk()), Command.Resume(operation, admitted, readmitted, Kill(old(budget), old(tears))))
      ensures o.Finished? ==> o.observed == Inspect(Disk()) && o.observed.Observed? && o.observed.stable
      ensures o.Finished? <==>
        && old(IsPending(Inspect(Disk()), operation)) && admitted && readmitted
        && old(Left() <= budget) && |journal| <= MAX_RECORDS
    {
      hide Sound, Inspect, Halted, Remaining, ToSwitched, Advance;
      KeptInspection(Disk());
      EffectKeeps(Disk(), Command.Resume(operation, admitted, readmitted, Kill(budget, tears)));
      var seen := Examine();
      if seen.Denied? || seen.stable || seen.operation != operation || !admitted {
        return DeniedOrHeld;
      }
      o := SwitchAndExec(operation, readmitted);
    }

    /** Unpack the slot, retain the bundle, reserve the operation, and carry it out. */
    method Prepare(r: Receipt, protocol: int, retained: bool, readmitted: bool) returns (o: Outcome)
      requires CanPrepare(Disk(), r, protocol)
      modifies this
      ensures Disk() == PrepareEffect(old(Disk()), r, old(trust.value), protocol, retained, readmitted,
                                      Kill(old(budget), old(tears)))
      ensures o.Finished? ==> o.observed == Inspect(Disk()) && o.observed.Observed? && o.observed.stable
      ensures o.Finished? <==>
        && Fills(old(Disk()), r, retained) && readmitted && |journal| <= MAX_RECORDS
        && old(budget) >= Unpacking(old(Disk()), r) + Remaining(PreparedOn(old(Disk()), r, protocol))
    {
      hide Sound, Inspect, Halted, Remaining, ToSwitched, Advance, AppendTo, Follows, NewEntry, InLanguage;
      PrepareRoom(Disk(), r, protocol);
      ghost var before := Disk();
      if r.artifact in slots {
        if slots[r.artifact] != r.manifest {
          return DeniedOrHeld;
        }
        assert slots == slots[r.artifact := r.manifest];
      } else {
        if budget == 0 {
          return Killed;
        }
        budget := budget - 1;
        slots := slots[r.artifact := r.manifest];
      }
      if r.metadata in bundles {
        return DeniedOrHeld;
      }
      if budget == 0 {
        return Killed;
      }
      budget := budget - 1;
      bundles := bundles + {r.metadata};
      if !retained {
        return DeniedOrHeld;
      }
      PreparedIsSound(before, r, protocol);
      var alive := Append(RecordOf(r, trust.value), protocol);
      if !alive {
        return Killed;
      }
      assert Disk() == PreparedOn(before, r, protocol);
      o := SwitchAndExec(r.metadata, readmitted);
    }

    method Apply(receipt: Option<Receipt>, retained: bool, readmitted: bool) returns (o: Outcome)
      requires Valid()
      modifies this
      ensures Valid()
      ensures Disk() ==
        Effect(old(Disk()), Command.Apply(receipt, retained, readmitted, Kill(old(budget), old(tears))))
      ensures o.Finished? ==> o.observed == Inspect(Disk()) && o.observed.Observed? && o.observed.stable
      ensures o.Finished? <==>
        && Reserves(old(Disk()), Command.Apply(receipt, retained, readmitted, Kill(old(budget), old(tears))))
        && readmitted && |journal| <= MAX_RECORDS
        && old(budget) >= Unpacking(old(Disk()), receipt.value)
                          + Remaining(PreparedOn(old(Disk()), receipt.value, Inspect(old(Disk())).protocol))
    {
      hide Sound, Inspect, Halted, Remaining, ToSwitched, Advance, PrepareEffect;
      EffectKeeps(Disk(), Command.Apply(receipt, retained, readmitted, Kill(budget, tears)));
      var seen := Examine();
      if seen.Denied? || !seen.stable || receipt == None || trust == None ||
         !Admissible(receipt.value, seen.highest, seen.lastTime) {
        return DeniedOrHeld;
      }
      StableCanPrepare(Disk(), receipt.value);
      o := Prepare(receipt.value, seen.protocol, retained, readmitted);
    }

    method Init(receipt: Option<Receipt>, trustBytes: string, retained: bool, readmitted: bool)
      returns (o: Outcome)
      requires Valid()
      modifies this
      ensures Valid()
      ensures Disk() ==
        Effect(old(Disk()), Command.Init(receipt, trustBytes, retained, readmitted, Kill(old(budget), old(tears))))
      ensures o.Finished? ==> o.observed == Inspect(Disk()) && o.observed.Observed? && o.observed.stable
      ensures o.Finished? <==>
        && Reserves(old(Disk()), Command.Init(receipt, trustBytes, retained, readmitted, Kill(old(budget), old(tears))))
        && readmitted && old(budget) >= 12
    {
      hide Sound, Inspect, Halted, Remaining, ToSwitched, Advance, PrepareEffect;
      EffectKeeps(Disk(), Command.Init(receipt, trustBytes, retained, readmitted, Kill(budget, tears)));
      if !pristine || receipt == None || !Admissible(receipt.value, 0, 0) {
        return DeniedOrHeld;
      }
      if budget == 0 {
        return Killed;
      }
      PristineIsUnborn(Disk());
      budget := budget - 1;
      pristine := false;
      if budget == 0 {
        return Killed;
      }
      budget := budget - 1;
      trust := Some(Sha256(Bytes(trustBytes)));
      FirstPlan(Disk(), receipt.value);
      FirstLength(Disk(), receipt.value, retained, readmitted, Kill(budget, tears));
      o := Prepare(receipt.value, 1, retained, readmitted);
    }
  }

  ghost function Plan(d: Disk, readmitted: bool): nat {
    if readmitted then Remaining(d) else ToSwitched(d)
  }

  lemma PlanFacts(d: Disk, readmitted: bool)
    requires Sound(d)
    ensures ToSwitched(d) <= Remaining(d)
    ensures Head(d).record.phase == Completed <==> Remaining(d) == 0
    ensures Head(d).record.phase in {Prepared, SwitchIntent} <==> ToSwitched(d) > 0
    ensures forall budget: nat, tears :: Halted(d, 0, budget, tears) == d
  {
    hide Sound;
    SoundHead(d);
  }

  /** The cap never falls between PREPARED and SWITCHED. */
  lemma CapRoom(n: nat)
    requires 0 < n <= MAX_RECORDS
    ensures PhaseAt(n - 1) == Prepared ==> n + 2 <= MAX_RECORDS
    ensures PhaseAt(n - 1) == SwitchIntent ==> n + 1 <= MAX_RECORDS
  {
  }

  lemma NextAppend(d: Disk)
    requires Live(d) && (Head(d).record.phase == SwitchIntent ==> d.pointer == Some(Head(d).record.artifact))
    requires Head(d).record.phase in {Prepared, SwitchIntent}
    ensures NextAction(d) ==
            Action.Append(if Head(d).record.phase == Prepared then SwitchIntent else Switched, Protocol(Head(d)))
  {
  }

  lemma AppendIsAdvance(d: Disk, record: Record, protocol: int)
    requires Live(d) && NextAction(d) == Action.Append(record.phase, protocol)
    requires record.(ordinal := 0) == Head(d).record.(phase := record.phase, ordinal := 0)
    ensures AppendTo(d, record, protocol) == Advance(d)
  {
    hide NextAction, OldRows;
  }

  lemma AppendedHead(d: Disk, record: Record, protocol: int)
    requires Live(d) && protocol in {1, 2}
    ensures var d' := AppendTo(d, record, protocol);
      && Live(d') && Head(d').record == record.(ordinal := |d'.journal|) && Protocol(Head(d')) == protocol
      && |d'.journal| == |d.journal| + 1 && d'.pointer == d.pointer && d'.index == d.index
  {
    EntriesSnoc(d, record, protocol);
  }

  /** One append of the writer is one step of the memoryless machine. */
  lemma AppendStep(d: Disk, readmitted: bool, budget: nat, tears: bool, record: Record, protocol: int)
    requires Sound(d) && NextAction(d) == Action.Append(record.phase, protocol)
    requires record.(ordinal := 0) == Head(d).record.(phase := record.phase, ordinal := 0)
    requires Plan(d, readmitted) > 0
    ensures var d' := AppendTo(d, record, protocol);
      && Sound(d') && Remaining(d') == Remaining(d) - 1
      && ToSwitched(d') == (if ToSwitched(d) > 0 then ToSwitched(d) - 1 else 0)
      && Head(d').record == record.(ordinal := |d'.journal|) && Protocol(Head(d')) == protocol
      && |d'.journal| == |d.journal| + 1 && d'.pointer == d.pointer && d'.index == d.index
      && (budget > 0 ==> Halted(d, Plan(d, readmitted), budget, tears) ==
                         Halted(d', Plan(d', readmitted), budget - 1, tears))
      && (budget == 0 ==> Halted(d, Plan(d, readmitted), budget, tears) == if tears then Tear(d) else d)
  {
    hide Sound, ToSwitched, Remaining, Advance, AppendTo, Halted, InLanguage, Backed, OldRows;
    SoundHead(d);
    PlanFacts(d, readmitted);
    AppendIsAdvance(d, record, protocol);
    AppendedHead(d, record, protocol);
    AdvanceKeeps(d);
    AdvanceCounts(d);
    if budget > 0 {
      HaltedStep(d, Plan(d, readmitted), budget, tears);
    } else {
      HaltedAtOnce(d, Plan(d, readmitted), tears);
    }
  }

  // A process that is killed before its first action.
  lemma HaltedAtOnce(d: Disk, total: nat, tears: bool)
    requires total > 0
    ensures Halted(d, total, 0, tears) == if tears && NextAction(d).Append? then Tear(d) else d
  {
    hide NextAction, Tear;
  }

  /** A pointer swap or an index publication is one step of the memoryless machine. */
  lemma FieldStep(d: Disk, readmitted: bool, budget: nat, tears: bool)
    requires Sound(d) && (NextAction(d) == Swap || (NextAction(d) == Publish && readmitted))
    ensures Plan(d, readmitted) > 0
    ensures var d' := Advance(d);
      && Sound(d') && d'.journal == d.journal && Remaining(d') == Remaining(d) - 1
      && (NextAction(d) == Swap ==> d' == d.(pointer := Some(Head(d).record.artifact)))
      && (NextAction(d) == Publish ==> d'.index.Some? && d'.pointer == d.pointer)
      && (budget > 0 ==> Halted(d, Plan(d, readmitted), budget, tears) ==
                         Halted(d', Plan(d', readmitted), budget - 1, tears))
      && (budget == 0 ==> Halted(d, Plan(d, readmitted), budget, tears) == d)
  {
    hide Sound;
    assert Remaining(d) > 0 && (NextAction(d) == Swap ==> ToSwitched(d) > 0);
    AdvanceKeeps(d);
    AdvanceCounts(d);
    if budget > 0 {
      HaltedStep(d, Plan(d, readmitted), budget, tears);
    }
  }
}
