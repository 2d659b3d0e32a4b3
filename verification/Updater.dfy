/** The offline updater: what it keeps on disk, the read-only inspection, and the writer
    with a process kill possible between any two durable actions. */
module Updater {
  import opened Wrappers
  import opened Journal

  datatype Row = Row(ordinal: int, digest: Hash)

  datatype IndexFile = Rows(rows: seq<Row>) | OtherIndex(bytes: string)

  // `pristine` is an empty root directory. `pointer` is the target of the `current` link,
  // `index` is journal-v2.json, `slots` maps the artifact of each intact slot to its
  // manifest digest, and `bundles` holds the names under bundles/.
  datatype Disk = Disk(
    pristine: bool, trust: Option<Hash>, slots: map<Hash, Hash>, bundles: set<Hash>,
    journal: seq<Named>, pointer: Option<Hash>, index: Option<IndexFile>)

  datatype Inspection =
    | Denied
    | Observed(stable: bool, phase: Phase, protocol: int, records: nat, head: Hash,
               operation: Hash, highest: int, lastTime: int, target: Hash, selected: bool,
               active: Option<Hash>)

  // What a successful admission tells about a bundle.
  datatype Receipt = Receipt(
    artifact: Hash, version: int, sourceCommit: string, metadata: Hash, verifiedAt: int, manifest: Hash)

  datatype Outcome = Killed | DeniedOrHeld | Finished(observed: Inspection)

  // ---------------------------------------------------------------------------
  // Inspection.

  function FileDigest(f: File): Hash {
    match f
    case Undecodable(bytes) => Sha256(Bytes(bytes))
    case Decoded(e) => DigestOf(e)
  }

  predicate Live(d: Disk) {
    Decodes(d.journal) && 0 < |d.journal|
  }

  function Head(d: Disk): Entry
    requires Live(d)
  {
    Entries(d.journal)[|d.journal| - 1]
  }

  function OldRows(es: seq<Entry>): seq<Row> {
    if es == [] then []
    else
      var last := es[|es| - 1];
      OldRows(es[..|es| - 1]) +
      (if Protocol(last) == 1 then [Row(last.record.ordinal, DigestOf(last))] else [])
  }

  /** Row for row, the protocol-1 records of a journal: its first records, and no later one. */
  predicate ListsOld(rows: seq<Row>, es: seq<Entry>) {
    && |rows| <= |es|
    && (forall i :: 0 <= i < |rows| ==> es[i].schema == V1 && rows[i] == Row(i + 1, DigestOf(es[i])))
    && (forall i :: |rows| <= i < |es| ==> es[i].schema == V2)
  }

  lemma {:induction false} OldRowsAreListed(es: seq<Entry>)
    requires InLanguage(es)
    ensures ListsOld(OldRows(es), es)
  {
    if es != [] {
      var n := |es| - 1;
      assert es == es[..n] + [es[n]];
      InLanguageSnoc(es[..n], es[n]);
      OldRowsAreListed(es[..n]);
      OldRowsSnoc(es, OldRows(es[..n]));
    }
  }

  lemma OldRowsSnoc(es: seq<Entry>, rows: seq<Row>)
    requires InLanguage(es) && es != [] && rows == OldRows(es[..|es| - 1]) && ListsOld(rows, es[..|es| - 1])
    ensures ListsOld(OldRows(es), es)
  {
    hide InLanguage;
    var n := |es| - 1;
    LastFits(es);
    assert forall i :: 0 <= i < n ==> es[..n][i] == es[i];
    if Protocol(es[n]) == 1 && n > 0 {
      assert es[..n][n - 1].schema == V1;
    }
  }

  lemma LastFits(es: seq<Entry>)
    requires InLanguage(es) && es != []
    ensures Follows(Before(es, |es| - 1), |es| - 1, es[|es| - 1])
  {
    assert Fits(es, |es| - 1);
  }

  /** In a journal of the language there is one such list, and the index is it. */
  lemma OldRowsIff(es: seq<Entry>, rows: seq<Row>)
    requires InLanguage(es)
    ensures rows == OldRows(es) <==> ListsOld(rows, es)
  {
    hide OldRows;
    OldRowsAreListed(es);
    var listed := OldRows(es);
    if ListsOld(rows, es) {
      var m := if |rows| < |listed| then |rows| else |listed|;
      assert m < |es| ==> (es[m].schema == V1 <==> m < |rows|);
      assert forall i :: 0 <= i < |rows| ==> rows[i] == listed[i];
    }
  }

  /** The published index lists exactly the protocol-1 records. */
  predicate IndexLists(d: Disk)
    requires Decodes(d.journal)
  {
    d.index.Some? && d.index.value.Rows? && ListsOld(d.index.value.rows, Entries(d.journal))
  }

  lemma IndexListsIff(d: Disk)
    requires Decodes(d.journal) && InLanguage(Entries(d.journal))
    ensures d.index == Some(Rows(OldRows(Entries(d.journal)))) <==> IndexLists(d)
  {
    hide ListsOld, OldRows;
    if d.index.Some? && d.index.value.Rows? {
      OldRowsIff(Entries(d.journal), d.index.value.rows);
    }
  }

  /** The latest COMPLETED record that selected `artifact`. */
  function LastCompleted(es: seq<Entry>, artifact: Hash): Option<Record> {
    if es == [] then None
    else
      var last := es[|es| - 1].record;
      if last.phase == Completed && last.artifact == artifact then Some(last)
      else LastCompleted(es[..|es| - 1], artifact)
  }

  function MaxVersion(es: seq<Entry>): int
    requires es != []
  {
    var last := es[|es| - 1].record.version;
    if |es| == 1 then last else
      var rest := MaxVersion(es[..|es| - 1]);
      if last > rest then last else rest
  }

  function MaxTime(es: seq<Entry>): int
    requires es != []
  {
    var last := es[|es| - 1].record.verifiedAt;
    if |es| == 1 then last else
      var rest := MaxTime(es[..|es| - 1]);
      if last > rest then last else rest
  }

  predicate SlotIntact(d: Disk, artifact: Hash, manifest: Hash) {
    artifact.Sha256? && artifact in d.slots && d.slots[artifact] == manifest
  }

  ghost function Inspect(d: Disk): Inspection {
    if !Accepts(d.journal) then Denied
    else
      var es := Entries(d.journal);
      var head := es[|es| - 1];
      var latest := head.record;
      var selected := d.pointer == Some(latest.artifact);
      var completed := latest.phase == Completed;
      if d.trust != Some(latest.trust) || !SlotIntact(d, latest.artifact, latest.manifest) then Denied
      else if d.pointer.Some? && d.pointer.value.NotHex? then Denied
      else if d.pointer.Some? && !selected &&
              (var prior := LastCompleted(es, d.pointer.value);
               prior == None || !SlotIntact(d, prior.value.artifact, prior.value.manifest)) then Denied
      else if completed && !selected then Denied
      else if Protocol(head) == 2 && d.index != Some(Rows(OldRows(es))) then Denied
      else Observed(completed, latest.phase, Protocol(head), |es|, DigestOf(head), latest.metadata,
                    MaxVersion(es), MaxTime(es), latest.artifact, selected, d.pointer)
  }

  // ---------------------------------------------------------------------------
  // The memoryless machine: the next durable action is read off the disk alone.

  function NewEntry(files: seq<Named>, record: Record, protocol: int): Entry {
    Entry("", if protocol == 1 then V1 else V2,
          if files == [] then None else Some(FileDigest(files[|files| - 1].file)),
          record.(ordinal := |files| + 1))
  }

  function AppendTo(d: Disk, record: Record, protocol: int): Disk {
    d.(journal := d.journal + [Named(|d.journal| + 1, Decoded(NewEntry(d.journal, record, protocol)))])
  }

  /** A kill inside `create`: the journal file exists and is empty. */
  function Tear(d: Disk): Disk {
    d.(journal := d.journal + [Named(|d.journal| + 1, Undecodable(""))])
  }

  datatype Action = Append(phase: Phase, protocol: int) | Swap | Publish | Done

  function NextAction(d: Disk): Action {
    if !Live(d) then Done
    else
      var head := Head(d);
      var p := Protocol(head);
      match head.record.phase
      case Prepared => Append(SwitchIntent, p)
      case SwitchIntent =>
        if d.pointer != Some(head.record.artifact) then Swap else Append(Switched, p)
      case Switched => Append(MigrationIntent, p)
      case MigrationIntent => if p != 2 && d.index == None then Publish else Append(Migrated, 2)
      case Migrated => Append(Completed, p)
      case _ => Done
  }

  function Advance(d: Disk): Disk {
    if !Live(d) then d
    else
      match NextAction(d)
      case Append(phase, protocol) => AppendTo(d, Head(d).record.(phase := phase), protocol)
      case Swap => d.(pointer := Some(Head(d).record.artifact))
      case Publish => d.(index := Some(Rows(OldRows(Entries(d.journal)))))
      case Done => d
  }

  function Iterate(d: Disk, k: nat): Disk {
    if k == 0 then d else Advance(Iterate(d, k - 1))
  }

  /** Durable actions left until the operation is SWITCHED, and until it is COMPLETED. */
  function ToSwitched(d: Disk): nat {
    if !Live(d) then 0
    else
      var r := Head(d).record;
      var swap := if d.pointer == Some(r.artifact) then 0 else 1;
      match r.phase
      case Prepared => 2 + swap
      case SwitchIntent => 1 + swap
      case _ => 0
  }

  function Remaining(d: Disk): nat {
    if !Live(d) then 0
    else
      var publish := if Protocol(Head(d)) != 2 && d.index == None then 1 else 0;
      match Head(d).record.phase
      case Prepared => ToSwitched(d) + 3 + publish
      case SwitchIntent => ToSwitched(d) + 3 + publish
      case Switched => 3 + publish
      case MigrationIntent => 2 + publish
      case Migrated => 1
      case _ => 0
  }

  /** The disk a process leaves that set out to do `total` actions and was killed after
      `budget` of them, inside the next one if `tears`. */
  function Halted(d: Disk, total: nat, budget: nat, tears: bool): Disk {
    if total <= budget then Iterate(d, total)
    else
      var s := Iterate(d, budget);
      if tears && NextAction(s).Append? then Tear(s) else s
  }

  // ---------------------------------------------------------------------------
  // What every command keeps.

  predicate Backed(d: Disk, r: Record) {
    && d.trust == Some(r.trust)
    && SlotIntact(d, r.artifact, r.manifest)
    && r.metadata in d.bundles
  }

  /** The artifact the previous operation completed with. */
  function PriorArtifact(es: seq<Entry>): Option<Hash>
    requires es != []
  {
    var group := (|es| - 1) / 6 * 6;
    if group == 0 then None else Some(es[group - 1].record.artifact)
  }

  predicate PointerFits(d: Disk, es: seq<Entry>)
    requires es != []
  {
    var target := Some(es[|es| - 1].record.artifact);
    match (|es| - 1) % 6
    case 0 => d.pointer == PriorArtifact(es)
    case 1 => d.pointer == PriorArtifact(es) || d.pointer == target
    case _ => d.pointer == target
  }

  predicate IndexFits(d: Disk, es: seq<Entry>)
    requires es != []
  {
    if Protocol(es[|es| - 1]) == 2 then d.index == Some(Rows(OldRows(es)))
    else d.index == None || (d.index == Some(Rows(OldRows(es))) && (|es| - 1) % 6 == 3)
  }

  ghost predicate Sound(d: Disk) {
    && !d.pristine
    && Live(d)
    && var es := Entries(d.journal);
       && InLanguage(es)
       && (forall i :: 0 <= i < |es| ==> Backed(d, es[i].record))
       && PointerFits(d, es)
       && IndexFits(d, es)
  }

  /** No record yet: an empty root, or one whose `init` was interrupted. */
  predicate Unborn(d: Disk) {
    && d.journal == [] && d.pointer == None && d.index == None
    && (d.pristine ==> d.trust == None && d.slots == map[] && d.bundles == {})
  }

  ghost predicate Torn(d: Disk) {
    && !d.pristine
    && d.journal != []
    && var s := d.(journal := d.journal[..|d.journal| - 1]);
       d == Tear(s) && (Sound(s) || Unborn(s))
  }

  ghost predicate Kept(d: Disk) {
    Sound(d) || Unborn(d) || Torn(d)
  }

  lemma EntriesSnoc(d: Disk, record: Record, protocol: int)
    requires Decodes(d.journal)
    ensures Decodes(AppendTo(d, record, protocol).journal)
    ensures Entries(AppendTo(d, record, protocol).journal) ==
            Entries(d.journal) + [NewEntry(d.journal, record, protocol)]
  {
    var d' := AppendTo(d, record, protocol);
    assert forall i :: 0 <= i < |d.journal| ==> d'.journal[i] == d.journal[i];
  }

  lemma {:induction false} LastCompletedIs(es: seq<Entry>, i: nat, artifact: Hash)
    requires InLanguage(es) && i < |es|
    requires es[i].record.phase == Completed && es[i].record.artifact == artifact
    ensures LastCompleted(es, artifact).Some?
    ensures exists j :: 0 <= j < |es| && es[j].record == LastCompleted(es, artifact).value
    ensures LastCompleted(es, artifact).value.artifact == artifact
  {
    var n := |es| - 1;
    if es[n].record.phase != Completed || es[n].record.artifact != artifact {
      assert es == es[..n] + [es[n]];
      InLanguageSnoc(es[..n], es[n]);
      LastCompletedIs(es[..n], i, artifact);
      var j :| 0 <= j < n && es[..n][j].record == LastCompleted(es[..n], artifact).value;
      assert es[j].record == LastCompleted(es, artifact).value;
    }
  }

  lemma PriorCompleted(es: seq<Entry>)
    requires InLanguage(es) && es != [] && PriorArtifact(es).Some?
    ensures var g := (|es| - 1) / 6 * 6;
            0 < g <= |es| && es[g - 1].record.phase == Completed && PriorArtifact(es) == Some(es[g - 1].record.artifact)
  {
    var g := (|es| - 1) / 6 * 6;
    assert Fits(es, g - 1);
    assert (g - 1) % 6 == 5;
  }

  /** A pointer that is not yet the target selects an intact slot some operation completed with. */
  lemma OldPointerIntact(d: Disk)
    requires Sound(d) && d.pointer.Some? && d.pointer != Some(Head(d).record.artifact)
    ensures var prior := LastCompleted(Entries(d.journal), d.pointer.value);
            prior.Some? && SlotIntact(d, prior.value.artifact, prior.value.manifest)
  {
    hide InLanguage, OldRows, LastCompleted, SlotIntact, IndexFits;
    var es := Entries(d.journal);
    var g := (|es| - 1) / 6 * 6;
    PriorCompleted(es);
    LastCompletedIs(es, g - 1, d.pointer.value);
    var j :| 0 <= j < |es| && es[j].record == LastCompleted(es, d.pointer.value).value;
    assert Backed(d, es[j].record);
  }

  lemma PointerIsDigest(d: Disk)
    requires Sound(d) && d.pointer.Some?
    ensures d.pointer.value.Sha256?
    ensures d.pointer.value in d.slots
  {
    var es := Entries(d.journal);
    var n := |es| - 1;
    assert Backed(d, es[n].record);
    if d.pointer != Some(es[n].record.artifact) {
      assert Backed(d, es[n / 6 * 6 - 1].record);
    }
  }

  lemma SoundHead(d: Disk)
    requires Sound(d)
    ensures Live(d) && InLanguage(Entries(d.journal)) && Backed(d, Head(d).record)
    ensures Head(d).record.phase == PhaseAt(|d.journal| - 1)
    ensures Protocol(Head(d)) in {1, 2}
    ensures Protocol(Head(d)) == 2 ==> d.index == Some(Rows(OldRows(Entries(d.journal))))
    ensures !(Head(d).record.phase in {Prepared, SwitchIntent}) ==> d.pointer == Some(Head(d).record.artifact)
    ensures d.index == None || d.index == Some(Rows(OldRows(Entries(d.journal))))
  {
    assert Fits(Entries(d.journal), |d.journal| - 1);
  }

  /** Record `j` is the last one with which an operation completed on `artifact`. */
  predicate LastCompletedAt(es: seq<Entry>, artifact: Hash, j: int) {
    && 0 <= j < |es| && CompletedOn(es[j].record, artifact)
    && forall k :: j < k < |es| ==> !CompletedOn(es[k].record, artifact)
  }

  predicate CompletedOn(r: Record, artifact: Hash) {
    r.phase == Completed && r.artifact == artifact
  }

  lemma LastCompletedSnoc(es: seq<Entry>, e: Entry, artifact: Hash, j: int)
    ensures LastCompletedAt(es + [e], artifact, j) <==>
            if CompletedOn(e.record, artifact) then j == |es| else LastCompletedAt(es, artifact, j)
  {
    hide CompletedOn;
    var all := es + [e];
    assert all[|es|] == e && forall k :: 0 <= k < |es| ==> all[k] == es[k];
  }

  lemma {:induction false} LastCompletedIff(es: seq<Entry>, artifact: Hash)
    ensures LastCompleted(es, artifact) == None <==> forall j :: !LastCompletedAt(es, artifact, j)
    ensures forall j :: LastCompletedAt(es, artifact, j) ==> LastCompleted(es, artifact) == Some(es[j].record)
  {
    if es != [] {
      hide LastCompletedAt;
      var n := |es| - 1;
      LastCompletedIff(es[..n], artifact);
      assert es == es[..n] + [es[n]];
      forall j
        ensures LastCompletedAt(es, artifact, j) <==>
                if CompletedOn(es[n].record, artifact) then j == n else LastCompletedAt(es[..n], artifact, j)
      {
        LastCompletedSnoc(es[..n], es[n], artifact, j);
      }
      if CompletedOn(es[n].record, artifact) {
        assert LastCompletedAt(es, artifact, n);
      } else if j :| LastCompletedAt(es[..n], artifact, j) {
        assert LastCompletedAt(es, artifact, j);
      }
      forall j | LastCompletedAt(es, artifact, j) ensures LastCompleted(es, artifact) == Some(es[j].record) {
        AtIsInside(es, artifact, j);
        if j < n {
          AtIsInside(es[..n], artifact, j);
        }
      }
    }
  }

  lemma AtIsInside(es: seq<Entry>, artifact: Hash, j: int)
    requires LastCompletedAt(es, artifact, j)
    ensures 0 <= j < |es| && es[j].record.artifact == artifact
  {
  }

  /** The pointer selects nothing, the target, or the intact slot of an earlier operation,
      checked against the last record that completed on it. */
  ghost predicate PointerHolds(d: Disk)
    requires Live(d)
  {
    || d.pointer == None || d.pointer == Some(Head(d).record.artifact)
    || (exists j :: LastCompletedAt(Entries(d.journal), d.pointer.value, j)
          && SlotIntact(d, d.pointer.value, Entries(d.journal)[j].record.manifest))
  }

  /** What a disk has to look like to pass inspection, whoever wrote it. */
  ghost predicate Passes(d: Disk) {
    && Accepts(d.journal)
    && var r := Head(d).record;
       && d.trust == Some(r.trust) && SlotIntact(d, r.artifact, r.manifest) && PointerHolds(d)
       && (r.phase == Completed ==> d.pointer == Some(r.artifact))
       && (Head(d).schema == V2 ==> IndexLists(d))
  }

  lemma PointerHoldsIff(d: Disk)
    requires Live(d)
    ensures PointerHolds(d) <==>
            || d.pointer == None || d.pointer == Some(Head(d).record.artifact)
            || (var prior := LastCompleted(Entries(d.journal), d.pointer.value);
                prior.Some? && SlotIntact(d, prior.value.artifact, prior.value.manifest))
    ensures d.pointer.Some? && LastCompleted(Entries(d.journal), d.pointer.value).Some? ==>
              LastCompleted(Entries(d.journal), d.pointer.value).value.artifact == d.pointer.value
  {
    hide LastCompleted;
    if d.pointer.Some? {
      LastCompletedIff(Entries(d.journal), d.pointer.value);
      if PointerHolds(d) && d.pointer != Some(Head(d).record.artifact) {
        var j :| LastCompletedAt(Entries(d.journal), d.pointer.value, j)
          && SlotIntact(d, d.pointer.value, Entries(d.journal)[j].record.manifest);
      }
    }
  }

  /** Inspection of any disk at all: when it succeeds, and what it reports. */
  lemma InspectionIff(d: Disk)
    ensures Inspect(d) != Denied <==> Passes(d)
    ensures Inspect(d) != Denied ==>
      var seen, r := Inspect(d), Head(d).record;
      && (seen.stable <==> r.phase == Completed) && seen.phase == r.phase
      && seen.protocol == (if Head(d).schema == V1 then 1 else 2)
      && seen.records == |d.journal| && seen.head == DigestOf(Head(d)) && seen.operation == r.metadata
      && seen.highest == r.version && seen.lastTime == r.verifiedAt
      && seen.target == r.artifact && (seen.selected <==> d.pointer == Some(r.artifact)) && seen.active == d.pointer
  {
    hide InLanguage, LastCompleted, PointerHolds, IndexLists, OldRows, MaxVersion, MaxTime;
    if Accepts(d.journal) {
      LastFits(Entries(d.journal));
      PointerHoldsIff(d);
      IndexListsIff(d);
      MaximaAreLast(Entries(d.journal));
    }
  }

  /** The writer and the recogniser agree: on every sound disk inspection succeeds exactly
      while the journal is within the reader's cap, and then reports what the disk holds. */
  lemma SoundInspection(d: Disk)
    requires Sound(d)
    ensures Inspect(d) != Denied <==> |d.journal| <= MAX_RECORDS
    ensures Inspect(d) != Denied ==>
      && Inspect(d).stable == (Remaining(d) == 0)
      && Inspect(d).phase == Head(d).record.phase
      && Inspect(d).operation == Head(d).record.metadata
      && Inspect(d).highest == Head(d).record.version
      && Inspect(d).lastTime == Head(d).record.verifiedAt
      && Inspect(d).protocol == Protocol(Head(d))
    ensures Remaining(d) == 0 <==> Head(d).record.phase == Completed
    ensures Remaining(d) == 0 ==> d.pointer == Some(Head(d).record.artifact)
  {
    hide Sound, InLanguage, LastCompleted, OldRows, MaxVersion, MaxTime;
    SoundHead(d);
    if d.pointer.Some? {
      PointerIsDigest(d);
      if d.pointer != Some(Head(d).record.artifact) {
        OldPointerIntact(d);
      }
    }
    MaximaAreLast(Entries(d.journal));
  }

  lemma {:induction false} MaximaAreLast(es: seq<Entry>)
    requires InLanguage(es) && es != []
    ensures MaxVersion(es) == es[|es| - 1].record.version
    ensures MaxTime(es) == es[|es| - 1].record.verifiedAt
  {
    var n := |es| - 1;
    if n > 0 {
      assert es == es[..n] + [es[n]];
      InLanguageSnoc(es[..n], es[n]);
      MaximaAreLast(es[..n]);
      VersionsIncrease(es, n - 1, n);
    }
  }

  lemma SuccessorFollows(before: Option<Entry>, n: nat, b: Entry, e: Entry)
    requires Follows(before, n, b) && b.record.phase != Completed
    requires e.record == b.record.(phase := PhaseAt(n + 1), ordinal := n + 2) && e.previous == Some(DigestOf(b))
    requires Protocol(e) == if b.record.phase == MigrationIntent then 2 else Protocol(b)
    ensures Follows(Some(b), n + 1, e)
  {
    hide IsCommit;
    assert (n + 1) % 6 == n % 6 + 1;
  }

  /** Copying the head record into the next phase gives a journal of the language. */
  lemma NextPhaseFits(d: Disk, protocol: int)
    requires Live(d) && InLanguage(Entries(d.journal)) && Head(d).record.phase != Completed
    requires protocol == (if Head(d).record.phase == MigrationIntent then 2 else Protocol(Head(d)))
    ensures var d' := AppendTo(d, Head(d).record.(phase := PhaseAt(|d.journal|)), protocol);
            && Live(d') && InLanguage(Entries(d'.journal))
            && Entries(d'.journal)[..|d.journal|] == Entries(d.journal)
            && SameOperation(Head(d').record, Head(d).record)
            && Head(d').record.verifiedAt == Head(d).record.verifiedAt
            && Protocol(Head(d')) == protocol
            && Head(d').record.phase == PhaseAt(|d.journal|)
  {
    var es := Entries(d.journal);
    var record := Head(d).record.(phase := PhaseAt(|es|));
    assert Fits(es, |es| - 1);
    EntriesSnoc(d, record, protocol);
    var e := NewEntry(d.journal, record, protocol);
    hide InLanguage, AppendTo, WellTyped;
    SuccessorFollows(Before(es, |es| - 1), |es| - 1, es[|es| - 1], e);
    InLanguageSnoc(es, e);
    assert (es + [e])[..|es|] == es;
  }

  lemma AppendBacked(d: Disk, protocol: int, i: nat)
    requires Sound(d) && NextAction(d) == Append(PhaseAt(|d.journal|), protocol)
    requires Live(AppendTo(d, Head(d).record.(phase := PhaseAt(|d.journal|)), protocol))
    requires i < |d.journal| + 1
    ensures var d' := AppendTo(d, Head(d).record.(phase := PhaseAt(|d.journal|)), protocol);
            Backed(d', Entries(d'.journal)[i].record)
  {
    hide InLanguage, PointerFits, IndexFits, NextAction, Fits;
    var es := Entries(d.journal);
    EntriesSnoc(d, Head(d).record.(phase := PhaseAt(|d.journal|)), protocol);
    assert Backed(d, es[if i < |es| then i else |es| - 1].record);
  }

  lemma SamePointers(d: Disk, record: Record, protocol: int)
    ensures AppendTo(d, record, protocol).pointer == d.pointer && AppendTo(d, record, protocol).index == d.index
  {
  }

  // One more record of the same operation, with the pointer and the index as they were.

  lemma PointerAppended(d: Disk, d': Disk, es: seq<Entry>, e: Entry)
    requires es != [] && PointerFits(d, es) && d'.pointer == d.pointer
    requires e.record.artifact == es[|es| - 1].record.artifact && (|es| - 1) % 6 != 5
    requires (|es| - 1) % 6 == 1 ==> d.pointer == Some(e.record.artifact)
    ensures PointerFits(d', es + [e])
  {
    var n := |es| - 1;
    assert (n + 1) / 6 * 6 == n / 6 * 6;
    assert PriorArtifact(es + [e]) == PriorArtifact(es);
  }

  lemma IndexAppended(d: Disk, d': Disk, es: seq<Entry>, e: Entry)
    requires es != [] && IndexFits(d, es) && d'.index == d.index && Protocol(e) in {1, 2}
    requires Protocol(e) == 1 ==> Protocol(es[|es| - 1]) != 2 && (|es| - 1) % 6 != 3
    requires Protocol(e) == 2 ==> Protocol(es[|es| - 1]) == 2 || d.index != None
    ensures IndexFits(d', es + [e])
  {
    if Protocol(e) == 2 {
      assert (es + [e])[..|es|] == es;
      assert OldRows(es + [e]) == OldRows(es);
    }
  }

  lemma SoundFits(d: Disk)
    requires Sound(d)
    ensures PointerFits(d, Entries(d.journal)) && IndexFits(d, Entries(d.journal))
  {
  }

  lemma NewEntryRecords(files: seq<Named>, record: Record, protocol: int)
    requires protocol in {1, 2}
    ensures var e := NewEntry(files, record, protocol);
            Protocol(e) == protocol && e.record == record.(ordinal := |files| + 1)
  {
  }

  lemma AppendPointer(d: Disk, protocol: int)
    requires Sound(d) && NextAction(d) == Append(PhaseAt(|d.journal|), protocol)
    ensures var d' := AppendTo(d, Head(d).record.(phase := PhaseAt(|d.journal|)), protocol);
            && Live(d') && PointerFits(d', Entries(d'.journal)) && IndexFits(d', Entries(d'.journal))
  {
    hide Backed, InLanguage, OldRows, PointerFits, IndexFits, Sound, AppendTo, NewEntry, Protocol;
    SoundHead(d);
    SoundFits(d);
    var record := Head(d).record.(phase := PhaseAt(|d.journal|));
    var es := Entries(d.journal);
    EntriesSnoc(d, record, protocol);
    SamePointers(d, record, protocol);
    NewEntryRecords(d.journal, record, protocol);
    PointerAppended(d, AppendTo(d, record, protocol), es, NewEntry(d.journal, record, protocol));
    IndexAppended(d, AppendTo(d, record, protocol), es, NewEntry(d.journal, record, protocol));
  }

  lemma NextPhase(d: Disk)
    requires Sound(d) && NextAction(d).Append?
    ensures Live(d) && Head(d).record.phase != Completed && NextAction(d).phase == PhaseAt(|d.journal|)
    ensures NextAction(d).protocol == if Head(d).record.phase == MigrationIntent then 2 else Protocol(Head(d))
  {
    hide Sound, OldRows;
    SoundHead(d);
  }

  lemma AppendKeeps(d: Disk, protocol: int)
    requires Sound(d) && NextAction(d) == Append(PhaseAt(|d.journal|), protocol)
    ensures Sound(AppendTo(d, Head(d).record.(phase := PhaseAt(|d.journal|)), protocol))
  {
    hide NextAction, Backed, PointerFits, IndexFits, InLanguage, OldRows, Protocol;
    AppendPointer(d, protocol);
    SoundHead(d);
    NextPhase(d);
    NextPhaseFits(d, protocol);
    var d' := AppendTo(d, Head(d).record.(phase := PhaseAt(|d.journal|)), protocol);
    forall i | 0 <= i < |Entries(d'.journal)| ensures Backed(d', Entries(d'.journal)[i].record) {
      AppendBacked(d, protocol, i);
    }
  }

  /** Swapping the pointer and publishing the index keep the disk sound. */
  lemma SwapKeeps(d: Disk)
    requires Sound(d) && NextAction(d) == Swap
    ensures Sound(d.(pointer := Some(Head(d).record.artifact)))
  {
    var d' := d.(pointer := Some(Head(d).record.artifact));
    var es := Entries(d.journal);
    assert Fits(es, |es| - 1);
    forall i | 0 <= i < |es| ensures Backed(d', es[i].record) {
      assert Backed(d, es[i].record);
    }
  }

  lemma PublishKeeps(d: Disk)
    requires Sound(d) && NextAction(d) == Publish
    ensures Sound(d.(index := Some(Rows(OldRows(Entries(d.journal))))))
  {
    var es := Entries(d.journal);
    var d' := d.(index := Some(Rows(OldRows(es))));
    assert Fits(es, |es| - 1);
    forall i | 0 <= i < |es| ensures Backed(d', es[i].record) {
      assert Backed(d, es[i].record);
    }
  }

  /** Every action of a pending operation keeps the disk sound. */
  lemma AdvanceKeeps(d: Disk)
    requires Sound(d)
    ensures Sound(Advance(d))
  {
    hide Sound, AppendTo, OldRows, Live;
    SoundHead(d);
    match NextAction(d)
    case Append(phase, protocol) =>
      NextPhase(d);
      AppendKeeps(d, protocol);
    case Swap =>
      SwapKeeps(d);
    case Publish =>
      PublishKeeps(d);
    case Done =>
  }

  /** Every action of a pending operation brings it one action nearer to COMPLETED. */
  lemma AdvanceCounts(d: Disk)
    requires Sound(d) && Remaining(d) > 0
    ensures Live(Advance(d))
    ensures Remaining(Advance(d)) == Remaining(d) - 1
    ensures ToSwitched(Advance(d)) == (if ToSwitched(d) > 0 then ToSwitched(d) - 1 else 0)
    ensures SameOperation(Head(Advance(d)).record, Head(d).record)
    ensures Head(Advance(d)).record.verifiedAt == Head(d).record.verifiedAt
  {
    hide Sound, InLanguage, Follows, OldRows, Backed, Fits, AppendTo;
    SoundHead(d);
    match NextAction(d)
    case Append(phase, protocol) =>
      NextPhase(d);
      NextPhaseFits(d, protocol);
      SamePointers(d, Head(d).record.(phase := phase), protocol);
    case Swap =>
    case Publish =>
    case Done =>
  }
}
