/** Whole histories of the updater: any commands in any order, with any arguments,
    admissions and kill points, starting from an empty root. */
module UpdaterRuns {
  import opened Wrappers
  import opened Journal
  import opened Updater
  import opened UpdaterCommands

  const EMPTY_ROOT: Disk := Disk(true, None, map[], {}, [], None, None)

  ghost function Run(d: Disk, cs: seq<Command>): Disk {
    if cs == [] then d else Effect(Run(d, cs[..|cs| - 1]), cs[|cs| - 1])
  }

  lemma {:induction false} RunKeeps(d: Disk, cs: seq<Command>)
    requires Kept(d)
    ensures Kept(Run(d, cs))
  {
    hide Effect, Kept;
    if cs != [] {
      RunKeeps(d, cs[..|cs| - 1]);
      EffectKeeps(Run(d, cs[..|cs| - 1]), cs[|cs| - 1]);
    }
  }

  lemma EmptyRootKept()
    ensures Kept(EMPTY_ROOT)
  {
  }

  /** Writer and recogniser agree on every reachable disk with a first record: inspection
      succeeds if and only if no journal file is torn and the journal is within the cap. It
      then reports STABLE exactly when the last record is COMPLETED, with the pointer at
      the target; before the switch is recorded the pointer is still at the artifact of the
      previous operation, or already at the target. */
  lemma ReachableInspection(cs: seq<Command>)
    ensures var d := Run(EMPTY_ROOT, cs);
      && (d.journal != [] ==>
            (Inspect(d) != Denied <==> Decodes(d.journal) && |d.journal| <= MAX_RECORDS))
      && (Inspect(d) != Denied ==>
            && Live(d)
            && (Inspect(d).stable <==> Head(d).record.phase == Completed)
            && Inspect(d).highest == Head(d).record.version
            && Inspect(d).lastTime == Head(d).record.verifiedAt
            && (d.pointer == Some(Head(d).record.artifact)
                || (d.pointer == PriorArtifact(Entries(d.journal))
                    && Head(d).record.phase in {Prepared, SwitchIntent})))
  {
    var d := Run(EMPTY_ROOT, cs);
    EmptyRootKept();
    RunKeeps(EMPTY_ROOT, cs);
    KeptInspection(d);
    if Torn(d) {
      assert d.journal[|d.journal| - 1].file == Undecodable("");
    }
    if Sound(d) {
      SoundInspection(d);
      SoundPointer(d);
    }
  }

  lemma SoundPointer(d: Disk)
    requires Sound(d)
    ensures d.pointer == Some(Head(d).record.artifact)
            || (d.pointer == PriorArtifact(Entries(d.journal)) && Head(d).record.phase in {Prepared, SwitchIntent})
  {
    hide InLanguage, OldRows, IndexFits, Backed;
    SoundHead(d);
  }

  // ---------------------------------------------------------------------------
  // History is append-only.

  /** Nothing durable is ever taken back: files, slots, bundles and trust stay as they
      are, and a published index is never replaced. */
  predicate Grows(d: Disk, d': Disk) {
    && d.journal <= d'.journal
    && (d.index.Some? ==> d'.index == d.index)
    && (d.trust.Some? ==> d'.trust == d.trust)
    && (forall a :: a in d.slots ==> a in d'.slots && d'.slots[a] == d.slots[a])
    && d.bundles <= d'.bundles
    && (!d.pristine ==> !d'.pristine)
  }

  lemma AdvanceGrows(d: Disk)
    ensures Grows(d, Advance(d))
  {
  }

  lemma {:induction false} IterateGrows(d: Disk, k: nat)
    ensures Grows(d, Iterate(d, k))
  {
    hide Advance;
    if k > 0 {
      IterateGrows(d, k - 1);
      AdvanceGrows(Iterate(d, k - 1));
    }
  }

  lemma HaltedGrows(d: Disk, total: nat, budget: nat, tears: bool)
    ensures Grows(d, Halted(d, total, budget, tears))
  {
    hide Advance, NextAction;
    IterateGrows(d, total);
    IterateGrows(d, budget);
  }

  lemma PrepareGrows(
    d: Disk, r: Receipt, trust: Hash, protocol: int, retained: bool, readmitted: bool, kill: Kill)
    ensures Grows(d, PrepareEffect(d, r, trust, protocol, retained, readmitted, kill))
  {
    hide Halted, Planned;
    var s := AppendTo(Stocked(d, r), RecordOf(r, trust), protocol);
    var spare := kill.budget - (if r.artifact in d.slots then 0 else 1);
    if spare >= 2 {
      HaltedGrows(s, Planned(s, r.metadata, readmitted), spare - 2, kill.tears);
    }
  }

  lemma EffectGrows(d: Disk, c: Command)
    requires Kept(d)
    ensures Grows(d, Effect(d, c))
  {
    hide Sound, Halted, Planned, PrepareEffect, Inspect;
    match c
    case Init(receipt, trustBytes, retained, readmitted, kill) =>
      if d.pristine && receipt.Some? && kill.budget >= 2 {
        PristineIsUnborn(d);
        var trust := Sha256(Bytes(trustBytes));
        PrepareGrows(d.(pristine := false, trust := Some(trust)), receipt.value, trust, 1,
                     retained, readmitted, Kill(kill.budget - 2, kill.tears));
      }
    case Apply(receipt, retained, readmitted, kill) =>
      if receipt.Some? && d.trust.Some? && Inspect(d).Observed? {
        PrepareGrows(d, receipt.value, d.trust.value, Inspect(d).protocol, retained, readmitted, kill);
      }
    case Resume(operation, _, readmitted, kill) =>
      HaltedGrows(d, Planned(d, operation, readmitted), kill.budget, kill.tears);
    case Finish(operation, _, kill) =>
      HaltedGrows(d, Planned(d, operation, true), kill.budget, kill.tears);
  }

  lemma {:induction false} RunGrows(d: Disk, cs: seq<Command>, more: seq<Command>)
    requires Kept(d)
    ensures Run(d, cs + more) == Run(Run(d, cs), more)
    ensures Grows(Run(d, cs), Run(d, cs + more))
  {
    hide Effect, Kept;
    if more == [] {
      assert cs + more == cs;
    } else {
      var n := |more| - 1;
      assert (cs + more)[..|cs + more| - 1] == cs + more[..n];
      RunGrows(d, cs, more[..n]);
      RunKeeps(d, cs + more[..n]);
      EffectGrows(Run(d, cs + more[..n]), more[n]);
      GrowsIsTransitive(Run(d, cs), Run(d, cs + more[..n]), Run(d, cs + more));
    }
  }

  lemma GrowsIsTransitive(a: Disk, b: Disk, c: Disk)
    requires Grows(a, b) && Grows(b, c)
    ensures Grows(a, c)
  {
  }

  /** Once published, journal-v2.json is the same in every later state, and there it is
      exactly the (ordinal, digest) list of the protocol-1 records, so a repeated
      migration finds the bytes it would have written. */
  lemma PublishedIndexIsFinal(cs: seq<Command>, more: seq<Command>)
    requires Run(EMPTY_ROOT, cs).index.Some?
    ensures var d := Run(EMPTY_ROOT, cs + more);
      && d.index == Run(EMPTY_ROOT, cs).index
      && (Decodes(d.journal) ==> IndexLists(d))
  {
    EmptyRootKept();
    RunGrows(EMPTY_ROOT, cs, more);
    RunKeeps(EMPTY_ROOT, cs + more);
    var d := Run(EMPTY_ROOT, cs + more);
    if Torn(d) {
      assert d.journal[|d.journal| - 1].file == Undecodable("");
    }
    if Sound(d) {
      SoundHead(d);
      IndexListsIff(d);
    }
  }

  // ---------------------------------------------------------------------------
  // Crash transparency and convergence.

  /** A command that can only carry on with a pending operation. */
  predicate Continues(c: Command) {
    c.Resume? || c.Finish?
  }

  /** `e` is a point on the path of the operation pending on `d`, or that point with one
      torn journal file. */
  ghost predicate OnPath(d: Disk, e: Disk) {
    exists k: nat :: k <= Remaining(d) && Reaches(d, e, k)
  }

  predicate Reaches(d: Disk, e: Disk, k: nat) {
    e == Iterate(d, k) || e == Tear(Iterate(d, k))
  }

  /** One continuing command, however it is killed, stops on the path. */
  lemma ContinueStaysOnPath(d: Disk, c: Command)
    requires Sound(d) && Continues(c)
    ensures OnPath(d, Effect(d, c))
  {
    hide Sound, Inspect, Remaining, ToSwitched, Advance, NextAction;
    var readmitted := if c.Resume? then c.readmitted else true;
    PlannedFits(d, c.operation, readmitted);
    var total := Planned(d, c.operation, readmitted);
    var e := Effect(d, c);
    assert e == d || e == Halted(d, total, c.kill.budget, c.kill.tears);
    var j := if e == d then 0 else if total <= c.kill.budget then total else c.kill.budget;
    assert Reaches(d, e, j);
  }

  /** Any number of resumes and finishes, each with any arguments and killed anywhere. */
  lemma {:induction false} ResumesStayOnPath(d: Disk, e: Disk, cs: seq<Command>)
    requires Sound(d) && OnPath(d, e) && forall c :: c in cs ==> Continues(c)
    ensures OnPath(d, Run(e, cs))
  {
    hide Sound, Effect, Remaining, ToSwitched, Advance, Torn;
    if cs != [] {
      var n := |cs| - 1;
      ResumesStayOnPath(d, e, cs[..n]);
      var m := Run(e, cs[..n]);
      var k: nat :| k <= Remaining(d) && Reaches(d, m, k);
      IterateKeeps(d, k);
      if m == Iterate(d, k) {
        IterateCounts(d, k);
        ContinueStaysOnPath(m, cs[n]);
        var j: nat :| j <= Remaining(m) && Reaches(m, Run(e, cs), j);
        IterateAdds(d, k, j);
        assert Reaches(d, Run(e, cs), k + j);
      } else {
        TearIsTorn(Iterate(d, k));
        TornIsHeld(m, cs[n]);
        assert Reaches(d, Run(e, cs), k);
      }
    }
  }

  /** A finished point on the path is the end of the path. */
  lemma FinishedOnPath(d: Disk, e: Disk)
    requires Sound(d) && OnPath(d, e)
    requires Live(e) && Head(e).record.phase == Completed
    ensures e == Iterate(d, Remaining(d))
  {
    hide Sound, Advance, ToSwitched, Torn, Inspect;
    var k: nat :| k <= Remaining(d) && Reaches(d, e, k);
    IterateKeeps(d, k);
    TornIsUnreadable(Iterate(d, k));
    IterateCounts(d, k);
    SoundInspection(e);
  }

  lemma TornIsUnreadable(d: Disk)
    ensures !Live(Tear(d))
  {
    assert Tear(d).journal[|d.journal|].file == Undecodable("");
  }

  /** The same command with nothing in its way. */
  function Uninterrupted(c: Command, budget: nat): Command
    requires c.Init? || c.Apply?
  {
    match c
    case Init(receipt, trustBytes, retained, _, _) => Init(receipt, trustBytes, retained, true, Kill(budget, false))
    case Apply(receipt, retained, _, _) => Apply(receipt, retained, true, Kill(budget, false))
  }

  /** From the PREPARED record on, every continuation that completes ends in one disk. */
  lemma OneEnd(d: Disk, r: Receipt, protocol: int, readmitted: bool, cut: Kill, cs: seq<Command>, left: nat)
    requires CanPrepare(d, r, protocol) && left >= 7
    requires r.artifact in d.slots ==> d.slots[r.artifact] == r.manifest
    requires forall c :: c in cs ==> Continues(c)
    ensures var e := Run(ContinueEffect(PreparedOn(d, r, protocol), r.metadata, readmitted, cut), cs);
      Live(e) && Head(e).record.phase == Completed ==>
        && e == Iterate(PreparedOn(d, r, protocol), Remaining(PreparedOn(d, r, protocol)))
        && e == ContinueEffect(PreparedOn(d, r, protocol), r.metadata, true, Kill(left, false))
  {
    hide Sound, Inspect, Advance, ToSwitched, Torn, Planned, Head, NextAction, PreparedOn, Effect;
    PreparedIsSound(d, r, protocol);
    var start := PreparedOn(d, r, protocol);
    var first := ContinueEffect(start, r.metadata, readmitted, cut);
    PlannedFits(start, r.metadata, readmitted);
    var total := Planned(start, r.metadata, readmitted);
    assert Reaches(start, first, if total <= cut.budget then total else cut.budget);
    ResumesStayOnPath(start, first, cs);
    WholePlan(d, r, protocol);
    var e := Run(first, cs);
    if Live(e) && Head(e).record.phase == Completed {
      FinishedOnPath(start, e);
    }
  }

  lemma WholePlan(d: Disk, r: Receipt, protocol: int)
    requires CanPrepare(d, r, protocol) && Live(PreparedOn(d, r, protocol))
    requires Head(PreparedOn(d, r, protocol)).record.metadata == r.metadata
    ensures var start := PreparedOn(d, r, protocol);
      Planned(start, r.metadata, true) == Remaining(start) <= 7
  {
    hide Sound, Inspect;
    PreparedEntries(d, r, protocol);
  }

  /** Crash transparency. Start an operation, by `init` on an empty root or by `apply` on a
      stable one, and let the process be killed anywhere after its PREPARED record is
      durable; resume or finish it any number of times, with any admissions and kill
      points. If the operation is completed in the end, the disk is the one the
      uninterrupted command leaves: every journal file, the pointer, the index, slots,
      trust and bundles. */
  lemma CrashTransparency(d: Disk, c: Command, cs: seq<Command>, whole: nat)
    requires Kept(d) && Reserves(d, c) && whole >= 12
    requires forall x :: x in cs ==> Continues(x)
    ensures var e := Run(Effect(d, c), cs);
      Live(e) && Head(e).record.phase == Completed ==> e == Effect(d, Uninterrupted(c, whole))
  {
    hide Sound, Inspect, Halted, Planned, Head, Run;
    var r := c.receipt.value;
    if c.Init? {
      PristineIsUnborn(d);
      var base := d.(pristine := false, trust := Some(Sha256(Bytes(c.trustBytes))));
      OneEnd(base, r, 1, c.readmitted, Kill(c.kill.budget - 5, c.kill.tears), cs, whole - 5);
    } else {
      StableCanPrepare(d, r);
      var used := if r.artifact in d.slots then 2 else 3;
      OneEnd(d, r, Inspect(d).protocol, c.readmitted, Kill(c.kill.budget - used, c.kill.tears), cs, whole - used);
    }
  }

  /** From MIGRATED on the writer records protocol 2. */
  predicate Migrates(d: Disk) {
    Live(d) && (PhaseIndex(Head(d).record.phase) >= 4 ==> Protocol(Head(d)) == 2)
  }

  lemma {:induction false} IterateMigrates(d: Disk, k: nat)
    requires Sound(d) && Migrates(d) && k <= Remaining(d)
    ensures Migrates(Iterate(d, k))
  {
    hide Sound, Advance, Remaining, ToSwitched, Migrates;
    if k > 0 {
      IterateMigrates(d, k - 1);
      IterateKeeps(d, k - 1);
      IterateCounts(d, k - 1);
      AdvanceMigrates(Iterate(d, k - 1));
    }
  }

  lemma AdvanceMigrates(d: Disk)
    requires Sound(d) && Migrates(d) && Remaining(d) > 0
    ensures Migrates(Advance(d))
  {
    hide Sound, InLanguage, Remaining, ToSwitched, AppendTo, OldRows, Backed, Fits;
    SoundHead(d);
    match NextAction(d)
    case Append(phase, protocol) =>
      NextPhase(d);
      NextPhaseFits(d, protocol);
    case _ =>
  }

  /** What `init` is for, whatever happens on the way: the journal has its six records, the
      index is there, and it lists the first four of them, which are the protocol-1 records. */
  lemma InitPublishes(d: Disk, c: Command, cs: seq<Command>)
    requires Kept(d) && c.Init? && Reserves(d, c) && forall x :: x in cs ==> Continues(x)
    ensures d.index == None
    ensures var e := Run(Effect(d, c), cs);
      Live(e) && Head(e).record.phase == Completed ==>
        && Protocol(Head(e)) == 2 && IndexLists(e)
        && |e.journal| == 6 && |e.index.value.rows| == 4
  {
    hide Sound, Inspect, Advance, ToSwitched, Torn, Halted, Planned, Head, NextAction, Run, Migrates, IndexLists;
    PristineIsUnborn(d);
    var r := c.receipt.value;
    var base := d.(pristine := false, trust := Some(Sha256(Bytes(c.trustBytes))));
    var start := PreparedOn(base, r, 1);
    PreparedIsSound(base, r, 1);
    OneEnd(base, r, 1, c.readmitted, Kill(c.kill.budget - 5, c.kill.tears), cs, 7);
    var e := Run(Effect(d, c), cs);
    if Live(e) && Head(e).record.phase == Completed {
      assert e == Iterate(start, Remaining(start));
      StartMigrates(base, r);
      IterateMigrates(start, Remaining(start));
      IterateKeeps(start, Remaining(start));
      CompletionLength(start);
      CompletedIndex(e);
    }
  }

  lemma StartMigrates(d: Disk, r: Receipt)
    requires CanPrepare(d, r, 1)
    ensures Migrates(PreparedOn(d, r, 1))
  {
    PreparedEntries(d, r, 1);
  }

  lemma CompletedIndex(d: Disk)
    requires Sound(d) && Migrates(d) && Head(d).record.phase == Completed
    ensures Protocol(Head(d)) == 2 && IndexLists(d) && |d.index.value.rows| % 6 == 4
    ensures |d.index.value.rows| <= |d.journal|
  {
    hide InLanguage, OldRows, Backed;
    SoundHead(d);
    IndexListsIff(d);
    MigratedAt(Entries(d.journal), d.index.value.rows);
  }

  /** The protocol changes at the fifth record of a group. */
  lemma MigratedAt(es: seq<Entry>, rows: seq<Row>)
    requires InLanguage(es) && ListsOld(rows, es) && es != [] && es[|es| - 1].schema == V2
    ensures |rows| % 6 == 4
  {
    var n := |rows|;
    assert Fits(es, n);
  }

  /** What a completed operation has done, whatever happened on the way: the last record is
      that of the reserved bundle, the pointer selects its slot, the slot and the bundle are
      there, and nobody has touched the trust it was admitted under. */
  lemma OperationInstalls(d: Disk, c: Command, cs: seq<Command>)
    requires Kept(d) && Reserves(d, c) && forall x :: x in cs ==> Continues(x)
    ensures var e, r := Run(Effect(d, c), cs), c.receipt.value;
      var trust := if c.Init? then Some(Sha256(Bytes(c.trustBytes))) else d.trust;
      Live(e) && Head(e).record.phase == Completed ==>
        && e.trust == trust && trust.Some? && e.pointer == Some(r.artifact)
        && Head(e).record == Record(|e.journal|, Completed, r.artifact, r.version, r.sourceCommit, r.metadata,
                                    r.verifiedAt, trust.value, r.manifest)
        && e.slots == d.slots[r.artifact := r.manifest] && e.bundles == d.bundles + {r.metadata}
  {
    hide Sound, Inspect, Advance, ToSwitched, Torn, Halted, Planned, Head, NextAction, Run;
    var r := c.receipt.value;
    if c.Init? {
      PristineIsUnborn(d);
      var base := d.(pristine := false, trust := Some(Sha256(Bytes(c.trustBytes))));
      OneEnd(base, r, 1, c.readmitted, Kill(c.kill.budget - 5, c.kill.tears), cs, 7);
      InstalledAtEnd(base, r, 1);
    } else {
      StableCanPrepare(d, r);
      var used := if r.artifact in d.slots then 2 else 3;
      OneEnd(d, r, Inspect(d).protocol, c.readmitted, Kill(c.kill.budget - used, c.kill.tears), cs, 7);
      InstalledAtEnd(d, r, Inspect(d).protocol);
    }
  }

  lemma InstalledAtEnd(d: Disk, r: Receipt, protocol: int)
    requires CanPrepare(d, r, protocol) && (r.artifact in d.slots ==> d.slots[r.artifact] == r.manifest)
    ensures var s := PreparedOn(d, r, protocol);
      var e := Iterate(s, Remaining(s));
      && Live(e) && e.trust == d.trust && e.pointer == Some(r.artifact)
      && Head(e).record == Record(|e.journal|, Completed, r.artifact, r.version, r.sourceCommit, r.metadata,
                                  r.verifiedAt, d.trust.value, r.manifest)
      && e.slots == d.slots[r.artifact := r.manifest] && e.bundles == d.bundles + {r.metadata}
  {
    hide Sound, Advance, ToSwitched, Inspect, PreparedOn, Remaining, Backed, OldRows;
    PreparedIsSound(d, r, protocol);
    var s := PreparedOn(d, r, protocol);
    ReservedHead(d, r, protocol);
    IterateKeeps(s, Remaining(s));
    IterateCounts(s, Remaining(s));
    IterateSameOperation(s, Remaining(s));
    IterateStock(s, Remaining(s));
    var e := Iterate(s, Remaining(s));
    SoundHead(e);
    SoundOrdinal(e);
    SoundInspection(e);
  }

  lemma SoundOrdinal(d: Disk)
    requires Sound(d)
    ensures Live(d) && Head(d).record.ordinal == |d.journal|
  {
    assert Fits(Entries(d.journal), |d.journal| - 1);
  }

  /** Convergence with the reader's bound: one undisturbed resume of a pending operation
      completes it, appending exactly the records that were missing, and the root is then
      STABLE if and only if this was one of the first 1666 operations. */
  lemma ResumeConverges(d: Disk, kill: Kill)
    requires Sound(d) && Remaining(d) > 0 && |d.journal| <= MAX_RECORDS && Remaining(d) <= kill.budget
    ensures var e := Effect(d, Resume(Head(d).record.metadata, true, true, kill));
      && Sound(e) && Remaining(e) == 0
      && |e.journal| == |d.journal| + 5 - PhaseIndex(Head(d).record.phase)
      && (Inspect(e) != Denied && Inspect(e).stable <==> (|d.journal| - 1) / 6 + 1 <= 1666)
  {
    hide Sound, Inspect, Advance, ToSwitched;
    SoundHead(d);
    SoundInspection(d);
    IterateKeeps(d, Remaining(d));
    IterateCounts(d, Remaining(d));
    CompletionLength(d);
    SoundInspection(Iterate(d, Remaining(d)));
  }

  lemma {:induction false} CompletionLength(d: Disk)
    requires Sound(d)
    ensures |Iterate(d, Remaining(d)).journal| == |d.journal| + 5 - PhaseIndex(Head(d).record.phase)
    ensures |Iterate(d, Remaining(d)).journal| == ((|d.journal| - 1) / 6 + 1) * 6
    decreases Remaining(d)
  {
    hide Sound, Inspect, Advance, Remaining, ToSwitched, PhaseAt, InLanguage, Backed;
    SoundHead(d);
    SoundInspection(d);
    if Remaining(d) == 0 {
      GroupIsFull(|d.journal|);
    } else {
      AdvanceKeeps(d);
      AdvanceCounts(d);
      CompletionLength(Advance(d));
      IterateStep(d, Remaining(d) - 1);
      AdvanceLength(d);
    }
  }

  lemma GroupIsFull(n: nat)
    requires 0 < n && PhaseAt(n - 1) == Completed
    ensures n == ((n - 1) / 6 + 1) * 6
  {
  }

  lemma AdvanceByOne(d: Disk)
    requires Live(d) && Remaining(d) > 0
    ensures |d.journal| <= |Advance(d).journal| <= |d.journal| + 1
    ensures Head(d).record.phase != Completed
  {
    hide OldRows;
  }

  lemma SameGroup(n: nat, m: nat)
    requires PhaseAt(n) != Completed && n <= m <= n + 1
    ensures PhaseIndex(PhaseAt(m)) - PhaseIndex(PhaseAt(n)) == m - n && m / 6 == n / 6
  {
    assert n % 6 < 5 && (n + 1) % 6 == n % 6 + 1;
  }

  lemma AdvanceLength(d: Disk)
    requires Sound(d) && Remaining(d) > 0
    ensures |Advance(d).journal| - |d.journal| ==
            PhaseIndex(Head(Advance(d)).record.phase) - PhaseIndex(Head(d).record.phase)
    ensures (|Advance(d).journal| - 1) / 6 == (|d.journal| - 1) / 6
  {
    hide Sound, Advance, InLanguage, OldRows, Backed, Remaining, PhaseAt, PhaseIndex;
    SoundHead(d);
    AdvanceKeeps(d);
    SoundHead(Advance(d));
    AdvanceByOne(d);
    SameGroup(|d.journal| - 1, |Advance(d).journal| - 1);
  }

  // ---------------------------------------------------------------------------
  // The bound is met: the 1667th operation completes on disk and is refused ever after.

  function NthBundle(m: nat): Receipt {
    Receipt(Sha256(Bytes("tar")), m, seq(40, _ => '0'), Sha256(Bytes(seq(m, _ => 'm'))), MAX_INTEGER,
            Sha256(Bytes("manifest")))
  }

  function Campaign(m: nat): seq<Command> {
    if m == 0 then []
    else if m == 1 then [Init(Some(NthBundle(1)), "trust", true, true, Kill(12, false))]
    else Campaign(m - 1) + [Apply(Some(NthBundle(m)), true, true, Kill(10, false))]
  }

  lemma AdvanceStock(d: Disk)
    ensures Advance(d).slots == d.slots && Advance(d).bundles == d.bundles && Advance(d).trust == d.trust
  {
    hide NextAction, OldRows, NewEntry;
  }

  lemma {:induction false} IterateStock(d: Disk, k: nat)
    ensures Iterate(d, k).slots == d.slots && Iterate(d, k).bundles == d.bundles && Iterate(d, k).trust == d.trust
  {
    hide Advance;
    if k > 0 {
      IterateStock(d, k - 1);
      AdvanceStock(Iterate(d, k - 1));
    }
  }

  /** An uninterrupted operation adds six records and its own stock. */
  lemma WholeOperation(d: Disk, r: Receipt, protocol: int, kill: Kill)
    requires CanPrepare(d, r, protocol) && |d.journal| <= 9996 && kill.budget >= 10
    requires r.metadata !in d.bundles && (r.artifact in d.slots ==> d.slots[r.artifact] == r.manifest)
    ensures var e := PrepareEffect(d, r, d.trust.value, protocol, true, true, kill);
      && Sound(e) && Remaining(e) == 0 && |e.journal| == |d.journal| + 6
      && Head(e).record.version == r.version
      && e.slots == d.slots[r.artifact := r.manifest] && e.bundles == d.bundles + {r.metadata}
  {
    hide Sound, Advance, ToSwitched, Inspect;
    PreparedIsSound(d, r, protocol);
    NewOperationFits(d, r, protocol);
    var s := PreparedOn(d, r, protocol);
    ReservedHead(d, r, protocol);
    IterateKeeps(s, Remaining(s));
    IterateCounts(s, Remaining(s));
    IterateSameOperation(s, Remaining(s));
    IterateStock(s, Remaining(s));
    CompletionLength(s);
  }

  lemma ReservedHead(d: Disk, r: Receipt, protocol: int)
    requires CanPrepare(d, r, protocol)
    ensures var s := PreparedOn(d, r, protocol);
      && Live(s) && Remaining(s) <= 7
      && Head(s).record == Record(|s.journal|, Prepared, r.artifact, r.version, r.sourceCommit, r.metadata,
                                  r.verifiedAt, d.trust.value, r.manifest)
      && s.slots == d.slots[r.artifact := r.manifest] && s.bundles == d.bundles + {r.metadata} && s.trust == d.trust
  {
    hide Sound;
    NewOperationFits(d, r, protocol);
    EntriesSnoc(Stocked(d, r), RecordOf(r, d.trust.value), protocol);
  }

  /** `m` operations are over: 6m records, and only their own slots and bundles. */
  ghost predicate AfterOperations(d: Disk, m: nat) {
    && Sound(d) && Remaining(d) == 0 && |d.journal| == 6 * m
    && Head(d).record.version == m
    && (forall a :: a in d.slots ==> d.slots[a] == NthBundle(m).manifest)
    && (forall b :: b in d.bundles ==> exists i :: 1 <= i <= m && b == NthBundle(i).metadata)
  }

  lemma FirstOperation()
    ensures AfterOperations(Effect(EMPTY_ROOT, Campaign(1)[0]), 1)
  {
    hide Sound, Inspect, PrepareEffect, Remaining, Head;
    var r := NthBundle(1);
    var d := EMPTY_ROOT.(pristine := false, trust := Some(Sha256(Bytes("trust"))));
    assert CanPrepare(d, r, 1);
    WholeOperation(d, r, 1, Kill(10, false));
  }

  lemma NextOperation(d: Disk, m: nat)
    requires 1 <= m < 1667 && AfterOperations(d, m)
    ensures AfterOperations(Effect(d, Apply(Some(NthBundle(m + 1)), true, true, Kill(10, false))), m + 1)
  {
    hide Sound, Inspect, PrepareEffect, Remaining, Head;
    var r := NthBundle(m + 1);
    SoundInspection(d);
    SoundHead(d);
    SoundNotPristine(d);
    HeadIsTimed(d);
    StableCanPrepare(d, r);
    assert r.metadata !in d.bundles by {
      DistinctNames(m + 1);
    }
    WholeOperation(d, r, Inspect(d).protocol, Kill(10, false));
  }

  lemma {:induction false} CampaignRuns(m: nat)
    requires 1 <= m <= 1667
    ensures AfterOperations(Run(EMPTY_ROOT, Campaign(m)), m)
  {
    hide AfterOperations, Effect;
    CampaignLength(m);
    CampaignLength(m - 1);
    assert Campaign(m)[..m - 1] == Campaign(m - 1);
    if m == 1 {
      FirstOperation();
      assert Run(EMPTY_ROOT, []) == EMPTY_ROOT;
    } else {
      CampaignRuns(m - 1);
      NextOperation(Run(EMPTY_ROOT, Campaign(m - 1)), m - 1);
      assert Campaign(m)[m - 1] == Apply(Some(NthBundle(m)), true, true, Kill(10, false));
    }
  }

  lemma {:induction false} CampaignLength(m: nat)
    ensures |Campaign(m)| == m
  {
    if m > 1 {
      CampaignLength(m - 1);
    }
  }

  lemma DistinctNames(m: nat)
    ensures forall i: nat :: i < m ==> NthBundle(i).metadata != NthBundle(m).metadata
  {
    forall i: nat | i < m ensures NthBundle(i).metadata != NthBundle(m).metadata {
      assert |NthBundle(i).metadata.content.bytes| == i;
      assert |NthBundle(m).metadata.content.bytes| == m;
    }
  }

  lemma HeadIsTimed(d: Disk)
    requires Sound(d)
    ensures Head(d).record.verifiedAt <= MAX_INTEGER
  {
    assert Fits(Entries(d.journal), |d.journal| - 1);
  }

  /** `append` never looks at the reader's cap: there is a history without a single kill or
      denial that ends in a completed operation which inspection refuses. */
  lemma CapIsReached()
    ensures var d := Run(EMPTY_ROOT, Campaign(1667));
      && Sound(d) && Head(d).record.phase == Completed && |d.journal| == 10002
      && Inspect(d) == Denied
  {
    CampaignRuns(1667);
    SoundInspection(Run(EMPTY_ROOT, Campaign(1667)));
  }
}
