/** The updater's hash-chained journal: its files, the recogniser that reads it back,
    and the language of journals the recogniser accepts. */
module Journal {
  import opened Wrappers

  const MAX_RECORDS: nat := 10000
  const MAX_INTEGER: int := 9007199254740991

  datatype Phase =
    | Prepared | SwitchIntent | Switched | MigrationIntent | Migrated | Completed
    | UnknownPhase(text: string)

  datatype Schema = V1 | V2 | OtherSchema(text: string)

  // SHA-256 is idealised: a digest is the content it was taken of, so equal digests
  // mean equal contents. A field that is not 64 hexadecimal digits is a `NotHex`.
  datatype Hash = Sha256(content: Content) | NotHex(text: string)

  datatype Content = Bytes(bytes: string) | JournalBytes(entry: Entry)

  // `layout` stands for the spacing and escapes of the stored JSON text, which the
  // reader ignores and the digest of the file does not.
  datatype Entry = Entry(layout: string, schema: Schema, previous: Option<Hash>, record: Record)

  datatype Record = Record(
    ordinal: int, phase: Phase, artifact: Hash, version: int, sourceCommit: string,
    metadata: Hash, verifiedAt: int, trust: Hash, manifest: Hash)

  // A file that does not decode, or has the wrong keys or types, is `Undecodable`;
  // the empty file left by a process killed inside `create` is one.
  datatype File = Undecodable(bytes: string) | Decoded(entry: Entry)

  // `name` is the number in the file name.
  datatype Named = Named(name: nat, file: File)

  function DigestOf(e: Entry): Hash {
    Sha256(JournalBytes(e))
  }

  function PhaseAt(i: nat): Phase {
    match i % 6
    case 0 => Prepared
    case 1 => SwitchIntent
    case 2 => Switched
    case 3 => MigrationIntent
    case 4 => Migrated
    case _ => Completed
  }

  function PhaseIndex(p: Phase): int {
    match p
    case Prepared => 0
    case SwitchIntent => 1
    case Switched => 2
    case MigrationIntent => 3
    case Migrated => 4
    case Completed => 5
    case UnknownPhase(_) => -1
  }

  function Protocol(e: Entry): int {
    match e.schema
    case V1 => 1
    case V2 => 2
    case OtherSchema(_) => 0
  }

  predicate IsCommit(s: string) {
    |s| == 40 && forall i :: 0 <= i < |s| ==> '0' <= s[i] <= '9' || 'a' <= s[i] <= 'f'
  }

  predicate WellTyped(r: Record) {
    && r.artifact.Sha256? && r.metadata.Sha256? && r.trust.Sha256? && r.manifest.Sha256?
    && IsCommit(r.sourceCommit)
    && 1 <= r.version <= MAX_INTEGER
    && 0 <= r.verifiedAt <= MAX_INTEGER
  }

  predicate SameOperation(a: Record, b: Record) {
    && a.artifact == b.artifact && a.version == b.version && a.sourceCommit == b.sourceCommit
    && a.metadata == b.metadata && a.trust == b.trust && a.manifest == b.manifest
  }

  // ---------------------------------------------------------------------------
  // The language, stated position by position.

  function Before(es: seq<Entry>, i: nat): Option<Entry>
    requires i <= |es|
  {
    if i == 0 then None else Some(es[i - 1])
  }

  /** `e` may stand at position `i` right after `before`. */
  predicate Follows(before: Option<Entry>, i: nat, e: Entry) {
    && WellTyped(e.record)
    && !e.schema.OtherSchema?
    && e.record.ordinal == i + 1
    && e.record.phase == PhaseAt(i)
    && match before
       case None =>
         e.previous == None && e.schema == V1
       case Some(b) =>
         && e.previous == Some(DigestOf(b))
         && b.record.verifiedAt <= e.record.verifiedAt
         && (if i % 6 == 0 then b.record.version < e.record.version
             else SameOperation(b.record, e.record))
         && (Protocol(b) == Protocol(e) || (Protocol(b) < Protocol(e) && i % 6 == 4))
  }

  predicate Fits(es: seq<Entry>, i: nat)
    requires i < |es|
  {
    Follows(Before(es, i), i, es[i])
  }

  ghost predicate InLanguage(es: seq<Entry>) {
    forall i :: 0 <= i < |es| ==> Fits(es, i)
  }

  predicate Decodes(files: seq<Named>) {
    forall i :: 0 <= i < |files| ==> files[i].file.Decoded? && files[i].name == i + 1
  }

  function Entries(files: seq<Named>): (es: seq<Entry>)
    requires Decodes(files)
    ensures |es| == |files|
    ensures forall i :: 0 <= i < |es| ==> es[i] == files[i].file.entry
  {
    seq(|files|, i requires 0 <= i < |files| => files[i].file.entry)
  }

  ghost predicate Accepts(files: seq<Named>) {
    && 0 < |files| <= MAX_RECORDS
    && Decodes(files)
    && InLanguage(Entries(files))
  }

  // ---------------------------------------------------------------------------
  // The recogniser.

  // The files read so far.
  predicate ReadSoFar(files: seq<Named>, records: seq<Entry>) {
    |records| <= |files| && forall j :: 0 <= j < |records| ==> files[j] == Named(j + 1, Decoded(records[j]))
  }

  lemma NotAccepted(files: seq<Named>)
    requires !(0 < |files| <= MAX_RECORDS)
    ensures !Accepts(files)
  {
  }

  lemma NothingRead()
    ensures InLanguage([])
  {
  }

  lemma AcceptedFits(files: seq<Named>, records: seq<Entry>, i: nat)
    requires i == |records| < |files| && ReadSoFar(files, records)
    ensures Accepts(files) ==>
              && files[i].name == i + 1 && files[i].file.Decoded?
              && Follows(Before(records, i), i, files[i].file.entry)
              && files[i].file.entry.record.version >= 1 && files[i].file.entry.record.verifiedAt >= 0
  {
    hide IsCommit;
    if Accepts(files) {
      assert Fits(Entries(files), i);
      assert Before(Entries(files), i) == Before(records, i);
    }
  }

  lemma AllAccepted(files: seq<Named>, records: seq<Entry>)
    requires |records| == |files| && 0 < |files| <= MAX_RECORDS && ReadSoFar(files, records) && InLanguage(records)
    ensures Accepts(files) && records == Entries(files)
  {
    hide InLanguage;
    assert records == Entries(files);
  }

  /** One pass over the directory with the state the reader keeps; it accepts exactly
      the language above and returns its records. */
  method ReadJournal(files: seq<Named>) returns (r: Option<seq<Entry>>)
    ensures r.Some? <==> Accepts(files)
    ensures r.Some? ==> r.value == Entries(files)
  {
    hide InLanguage, Accepts, WellTyped, DigestOf;
    if !(0 < |files| <= MAX_RECORDS) {
      NotAccepted(files);
      return None;
    }
    NothingRead();
    var previous: Option<Hash> := None;
    var records: seq<Entry> := [];
    var protocol := 1;
    var lastVersion := 0;
    var lastClock := 0;
    var operation: Option<Record> := None;
    var previousPhase: Option<Phase> := None;
    for i := 0 to |files|
      invariant |records| == i && ReadSoFar(files, records)
      invariant InLanguage(records)
      invariant if i == 0 then
                  previous == None && protocol == 1 && lastVersion == 0 && lastClock == 0 &&
                  operation == None && previousPhase == None
                else
                  && previous == Some(DigestOf(records[i - 1])) && protocol == Protocol(records[i - 1])
                  && lastVersion == records[i - 1].record.version
                  && lastClock == records[i - 1].record.verifiedAt
                  && operation.Some? && SameOperation(operation.value, records[i - 1].record)
                  && previousPhase == Some(PhaseAt(i - 1))
    {
      AcceptedFits(files, records, i);
      if files[i].name != i + 1 || files[i].file.Undecodable? {
        return None;
      }
      var entry := files[i].file.entry;
      if entry.schema.OtherSchema? {
        return None;
      }
      var currentProtocol := Protocol(entry);
      if currentProtocol < protocol {
        return None;
      }
      var record := entry.record;
      if record.ordinal != i + 1 || entry.previous != previous {
        return None;
      }
      if PhaseIndex(record.phase) < 0 || !WellTyped(record) || record.verifiedAt < lastClock {
        return None;
      }
      if record.phase == Prepared {
        if !(previousPhase in {None, Some(Completed)}) || record.version <= lastVersion {
          return None;
        }
        operation := Some(record);
      } else {
        if operation == None || !SameOperation(operation.value, record) {
          return None;
        }
        if previousPhase == None || PhaseIndex(record.phase) != PhaseIndex(previousPhase.value) + 1 {
          return None;
        }
      }
      if currentProtocol > protocol && record.phase != Migrated {
        return None;
      }
      assert record.phase == PhaseAt(i);
      assert Follows(Before(records, i), i, entry);
      InLanguageSnoc(records, entry);
      protocol := currentProtocol;
      previous := Some(DigestOf(entry));
      records := records + [entry];
      lastVersion := record.version;
      lastClock := record.verifiedAt;
      previousPhase := Some(record.phase);
    }
    AllAccepted(files, records);
    return Some(records);
  }

  // ---------------------------------------------------------------------------
  // What acceptance means for the journal as a whole.

  lemma InLanguageSnoc(es: seq<Entry>, e: Entry)
    ensures InLanguage(es + [e]) <==> InLanguage(es) && Follows(Before(es, |es|), |es|, e)
  {
    var all := es + [e];
    forall i | 0 <= i < |es| ensures Fits(all, i) == Fits(es, i) {
      assert Before(all, i) == Before(es, i);
    }
    assert all[|es|] == e && Before(all, |es|) == Before(es, |es|);
    if InLanguage(all) {
      forall i | 0 <= i < |es| ensures Fits(es, i) {
        assert Fits(all, i);
      }
      assert Fits(all, |es|);
    }
  }

  /** All records of one six-record group describe the same operation. */
  lemma {:induction false} GroupAgrees(es: seq<Entry>, i: nat, j: nat)
    requires InLanguage(es) && i <= j < |es| && i / 6 == j / 6
    ensures SameOperation(es[i].record, es[j].record)
  {
    if i < j {
      GroupAgrees(es, i, j - 1);
      assert Fits(es, j);
    }
  }

  /** Versions strictly increase from group to group and verified times never go back. */
  lemma {:induction false} VersionsIncrease(es: seq<Entry>, i: nat, j: nat)
    requires InLanguage(es) && i <= j < |es|
    ensures es[i].record.version <= es[j].record.version
    ensures i / 6 < j / 6 ==> es[i].record.version < es[j].record.version
    ensures es[i].record.verifiedAt <= es[j].record.verifiedAt
  {
    if i < j {
      VersionsIncrease(es, i, j - 1);
      assert Fits(es, j);
    }
  }

  /** The protocol changes at most once, from 1 to 2, and only at a MIGRATED record:
      the protocol-1 records are a prefix. */
  lemma {:induction false} OldRecordsFormPrefix(es: seq<Entry>, i: nat, j: nat)
    requires InLanguage(es) && i <= j < |es|
    ensures es[j].schema == V1 ==> es[i].schema == V1
    ensures es[0].schema == V1
    ensures es[i].schema == V1 && es[j].schema == V2 ==>
      exists m :: i < m <= j && es[m].record.phase == Migrated && es[m - 1].schema == V1 && es[m].schema == V2
  {
    assert Fits(es, 0);
    assert Fits(es, i);
    if i < j {
      OldRecordsFormPrefix(es, i, j - 1);
      assert Fits(es, j - 1) && Fits(es, j);
      if es[j - 1].schema == V1 && es[j].schema == V2 {
        assert es[j].record.phase == Migrated;
      }
    }
  }

  /** The head digest fixes the whole history: every record, its order, and the length. */
  lemma {:induction false} HeadDigestFixesHistory(a: seq<Entry>, b: seq<Entry>)
    requires InLanguage(a) && InLanguage(b) && 0 < |a| && 0 < |b|
    requires DigestOf(a[|a| - 1]) == DigestOf(b[|b| - 1])
    ensures a == b
  {
    var m, n := |a| - 1, |b| - 1;
    assert Fits(a, m) && Fits(b, n);
    assert m == n;
    if m > 0 {
      var a', b' := a[..m], b[..n];
      assert a == a' + [a[m]] && b == b' + [b[n]];
      InLanguageSnoc(a', a[m]);
      InLanguageSnoc(b', b[n]);
      HeadDigestFixesHistory(a', b');
    }
  }
}
