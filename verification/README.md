# Verified models of the updater, the browser shell and the governed fast path

This project models the parts of the repository whose correctness depends on state, on
interruption or on exact text, and proves what they promise. It has five parts.

**The crash-recoverable offline updater** (`Journal`, `Updater`, `UpdaterCommands`,
`UpdaterRoot`, `UpdaterRuns`). A protected root directory holds a hash-chained journal, the
`current` pointer, slots, retained bundles and a migration index. `UpdaterRoot.Root` does
what the updater does, one durable action at a time; before each action the process may be
killed, and a kill inside a file creation leaves an empty journal file. Every method is
proved to leave exactly the disk that a memoryless machine prescribes: the next action is a
function of the disk alone. On that machine stand the results about whole histories.
`Journal.ReadJournal` is the separate recogniser, proved to accept exactly a declaratively
defined language of journals.

**Browser shell lifetimes** (`PluginStatus`, `RenderLifetimes`, `ContextOwner`). Callbacks
re-enter the shell in the middle of its operations. The memoised dependency search is proved
equal to a least fixpoint. Render lifetimes are a machine over the JavaScript stack, with
every interleaving of public calls inside every callback. The context owners are a class
whose methods call an arbitrary number of re-entrant public calls wherever the code runs
code of its caller, under a rely condition that every method keeps.

**Canonical JSON and set digests** (`Texts`, `Json`, `JsonForms`, `CanonicalJson`,
`SetDigest`, `TupleForms`). Texts are sequences of UTF-16 code units. The printer follows
section 7 of RFC 8259 and the key order of section 3.2.3 of RFC 8785; a reader is given for
it, the two undo each other, and the printed texts are pinned down character by character.

**The fast-path decision pipeline** (`KnowledgeRevalidation`, `KeyOrder`, `FastPathRoute`,
`Envelopes`, `WorkflowApplicability`, `ApplicabilityRefusals`, `ApplicabilityOrder`,
`ShadowReplay`). Nested loops and early exits over four modules are proved equal to
order-free conditions, end to end, and every refusal to report the first thing in the way.

**Two compact compilers** (`DeepLink`, `SyscallFilter`). A link printer and parser, and a
BPF program run by an interpreter over 32-bit words.

SHA-256 is a free constructor throughout: equal digests come from equal contents only.

## Findings

Five expectations fail. For each there is an input that shows it, and the exact condition
under which the code meets the expectation.

- The journal reader refuses more than 10000 records and the writer never looks at that
  limit. A completed operation is STABLE exactly when it is one of the first 1666
  (`UpdaterRuns.ResumeConverges`); the 1667th completes and leaves a root that inspection
  refuses (`UpdaterRuns.CapIsReached`).
- `retireAll` does not check whether the registry is closed. Called on a closed registry
  whose map still holds a settled render with a cleanup, from whatever stack, it runs that
  cleanup a second time (`RenderLifetimes.CleanupCanRunTwice`,
  `RenderLifetimes.LeftoverRunsTwice`); that is the only call that breaks the discipline
  (`RenderLifetimes.StepKeeps`, `RenderLifetimes.RetireAllKeepsIff`).
- A lifetime that a re-entrant render is about to overwrite need not be pending
  (`RenderLifetimes.OverwrittenCanBeSettled`). It always is if and only if no factory throws
  in the closed registry while an outer render awaits the cell of its lifetime
  (`RenderLifetimes.OverwritesPendingIff`, and over whole runs
  `RenderLifetimes.OverwrittenAlwaysPendingIff`). It has no cleanup even then
  (`RenderLifetimes.OverwrittenIsPending`).
- The Knowledge dependency digest sorts by `JSON.stringify` and digests canonical JSON, so
  the order of the two keys inside a freshness window can change it. It cannot exactly when
  no two different backed bindings agree on kind, id, version and digest
  (`KeyOrder.KeyOrderIff`).
- For the same reason that digest can depend on the order of the bindings, if one binding is
  given twice in different key orders (`KeyOrder.CopiesCanFlipDigest`). The exact condition
  is `KeyOrder.OrderIff`; inputs with one key order are safe (`KeyOrder.SafeInputs`).

A set digest of references identifies them up to (kind, id, version, digest); it says
nothing about `schemaVersion` (`SetDigest.RefSetDigestsAgree`).

## Model

| member | source | states |
|---|---|---|
| Journal.ReadJournal | scripts/offline-rescue.py:78-124 | the one-pass reader accepts a directory exactly when its files, in order, decode to a journal of the language (at most 10000 records), and then returns those records |
| Journal.InLanguageSnoc | scripts/offline-rescue.py:90-123 | a journal of the language grows by one record exactly when that record may follow the last one |
| Journal.GroupAgrees | scripts/offline-rescue.py:110-117 | all records of one six-record group agree on every operation field |
| Journal.VersionsIncrease | scripts/offline-rescue.py:109-122 | versions strictly increase from group to group and verified times never decrease |
| Journal.OldRecordsFormPrefix | scripts/offline-rescue.py:96-118 | protocol-1 records form a prefix, and the protocol changes only at a MIGRATED record |
| Journal.HeadDigestFixesHistory | scripts/offline-rescue.py:90-120 | two accepted journals with the same head digest are identical record for record |
| Updater.SoundInspection | scripts/offline-rescue.py:157-188 | on every sound disk inspection succeeds exactly within the record cap, is STABLE exactly when nothing is pending, and reports the head record |
| Updater.InspectionIff | scripts/offline-rescue.py:157-188 | on any disk at all: inspection succeeds exactly if the journal is accepted, trust and target slot are those of its head, the pointer selects nothing, the target or the intact slot of the last operation completed on it, a completed target is selected and a migrated journal has its index; and each reported field is that of the journal |
| Updater.LastCompletedIff | scripts/offline-rescue.py:169 | the backward search finds the last record that completed on an artifact, and nothing exactly if there is none |
| Updater.OldRowsIff | scripts/offline-updater.py:200-201 | the index rows are, one for one and in order, the records of protocol 1: the first ones of the journal and no later one, each with its ordinal and digest |
| Updater.MaximaAreLast | scripts/offline-rescue.py:183-184 | the reported highest version and last verified time are those of the last record |
| Updater.LastCompletedIs | scripts/offline-rescue.py:168-173 | the backward search for a completed record finds the operation that selected the active slot |
| Updater.OldPointerIntact | scripts/offline-rescue.py:168-173 | before the switch the pointer selects nothing or an intact slot that an operation completed with |
| Updater.NextPhaseFits | scripts/offline-updater.py:152-183 | copying the head record into the next phase extends the journal within its language |
| Updater.AppendKeeps | scripts/offline-updater.py:152-157 | appending the next phase keeps the disk sound, chain included |
| Updater.SwapKeeps | scripts/offline-updater.py:173-179 | replacing the pointer keeps the disk sound |
| Updater.PublishKeeps | scripts/offline-updater.py:199-230 | publishing the index keeps the disk sound |
| Updater.AdvanceKeeps | scripts/offline-updater.py:165-250 | every durable action of a pending operation keeps the disk sound |
| Updater.AdvanceCounts | scripts/offline-updater.py:165-250 | every durable action brings the same operation exactly one action nearer to COMPLETED |
| UpdaterCommands.HaltedKeeps | scripts/offline-updater.py:37-47 | a process killed after any number of actions leaves a sound disk, or one that is sound but for a torn last file |
| UpdaterCommands.TornIsHeld | scripts/offline-rescue.py:91-95 | a torn journal is refused, and no command changes the disk again |
| UpdaterCommands.KeptInspection | scripts/offline-rescue.py:157-188 | of all disks the updater can leave, inspection accepts exactly the sound ones within the cap |
| UpdaterCommands.PreparedIsSound | scripts/offline-updater.py:307-318 | reserving an operation on a stable or empty root gives a sound disk with that operation pending |
| UpdaterCommands.PrepareKeeps | scripts/offline-updater.py:87-150 | unpacking, retaining and reserving stay within the kept disks at every kill point |
| UpdaterCommands.EffectKeeps | scripts/offline-updater.py:253-328 | init, apply, resume and finish, with any arguments, admissions and kill point, keep the invariant |
| UpdaterRoot.Root.constructor | scripts/offline-updater.py:274 | a new root is empty, as `init` requires it |
| UpdaterRoot.Root.Examine | scripts/offline-rescue.py:157-188 | the imperative inspection equals its specification on any disk at all |
| UpdaterRoot.Root.Append | scripts/offline-updater.py:152-157 | one new file, whole or torn, and nothing else changes |
| UpdaterRoot.Root.MigrateJournal | scripts/offline-updater.py:194-231 | publishes the list of exactly the protocol-1 records once, or finds the very same list already published |
| UpdaterRoot.Root.CurrentRecord | scripts/offline-updater.py:160-162 | hands back the head of the journal, or nothing beyond the cap |
| UpdaterRoot.Root.MovePointer | scripts/offline-updater.py:172-180 | the pointer ends at the target and the step is one of the memoryless machine |
| UpdaterRoot.Root.Switch | scripts/offline-updater.py:165-183 | from any phase up to SWITCHED, does exactly the missing actions, or stops where it is killed |
| UpdaterRoot.Root.SwitchAndExec | scripts/offline-updater.py:165-191 | carries an operation to its end; finishes exactly when it is readmitted, not killed and within the cap |
| UpdaterRoot.Root.FinishOperation | scripts/offline-updater.py:234-250 | from SWITCHED on, does exactly the missing actions; finished means STABLE |
| UpdaterRoot.Root.RunFinish | scripts/offline-updater.py:319-328 | the finish command leaves the prescribed disk for every kill point, and finishes exactly when the operation is pending and switched, admitted, not killed and within the cap |
| UpdaterRoot.Root.Resume | scripts/offline-updater.py:319-327 | the resume command leaves the prescribed disk for every kill point, and finishes exactly when the operation is pending, admitted twice, not killed and within the cap |
| UpdaterRoot.Root.Prepare | scripts/offline-updater.py:308-318 | slot, bundle and PREPARED record, then the switch, for every kill point; finishes exactly when nothing is in the way and no kill comes |
| UpdaterRoot.Root.Apply | scripts/offline-updater.py:307-318 | the apply command leaves the prescribed disk for every kill point, and finishes exactly when it reserves, is readmitted, is not killed and stays within the cap |
| UpdaterRoot.Root.Init | scripts/offline-updater.py:273-288 | the init command leaves the prescribed disk for every kill point, and finishes exactly when it reserves, is readmitted and lives for its twelve actions |
| UpdaterRuns.RunKeeps | scripts/offline-updater.py:253-328 | the invariant holds after any sequence of commands |
| UpdaterRuns.ReachableInspection | scripts/offline-rescue.py:157-188 | on every reachable disk with a record, inspection accepts exactly when no file is torn and the cap holds; STABLE means COMPLETED; before the switch is recorded the pointer is at the previous artifact or already at the target |
| UpdaterRuns.RunGrows | scripts/offline-updater.py:152-157 | over any history nothing durable is taken back: journal files, slots, bundles, trust and index |
| UpdaterRuns.PublishedIndexIsFinal | scripts/offline-updater.py:194-231 | once published, the index never changes, and always lists exactly the protocol-1 records of the journal |
| UpdaterRuns.ContinueStaysOnPath | scripts/offline-updater.py:319-328 | one resume or finish, however killed, stops at a point of the pending operation's path |
| UpdaterRuns.ResumesStayOnPath | scripts/offline-updater.py:319-328 | so does any number of them |
| UpdaterRuns.CrashTransparency | scripts/offline-updater.py:253-328 | for `init` and for `apply`: after any crashes past PREPARED and any resumes, a completed operation leaves the very disk of the uninterrupted command, pointer and migration index included |
| UpdaterRuns.InitPublishes | scripts/offline-updater.py:194-231 | an `init` that is completed in the end, whatever happened on the way, has six records and an index that lists exactly the first four |
| UpdaterRuns.OperationInstalls | scripts/offline-updater.py:253-328 | a completed operation has recorded the fields of its bundle, selected its slot, and kept slot, bundle and trust |
| UpdaterRuns.ResumeConverges | scripts/offline-updater.py:165-250 | one undisturbed resume completes the operation, appending 5 minus the phase index records; the root is then STABLE exactly for the first 1666 operations |
| UpdaterRuns.CompletionLength | scripts/offline-updater.py:234-250 | a completed operation has filled its group of six records |
| UpdaterRuns.CampaignRuns | scripts/offline-updater.py:307-318 | n undisturbed operations leave 6n records and a sound, completed root |
| UpdaterRuns.CapIsReached | scripts/offline-rescue.py:82 | after 1667 undisturbed operations the completed root has 10002 records and inspection refuses it |
| PluginStatus.RegisteredIsFixpoint | packages/browser-shell/src/registry-v1.ts:48-65 | a plugin is REGISTERED exactly when it is present, enabled, and every dependency is present in its exact version and REGISTERED |
| PluginStatus.RegisteredIsLeast | packages/browser-shell/src/registry-v1.ts:48-65 | REGISTERED is the least set with that property |
| PluginStatus.CycleIsNotRegistered | packages/browser-shell/src/registry-v1.ts:56 | no plugin on a dependency cycle is REGISTERED |
| PluginStatus.RegisteredIffAcyclic | packages/browser-shell/src/registry-v1.ts:48-65 | REGISTERED in graph terms: everything reachable is sane and no cycle can be reached |
| PluginStatus.ExactMeans | packages/browser-shell/src/registry-v1.ts:48-65 | the other three answers: absent, disabled, or enabled with a dependency that fails |
| PluginStatus.StatusSearch.Visit | packages/browser-shell/src/registry-v1.ts:50-63 | the memoised search terminates and is exact, also for what it memoises while ancestors are being visited |
| PluginStatus.StatusOf | packages/browser-shell/src/registry-v1.ts:48-65 | a fresh search is exact for every plugin table |
| PluginStatus.MorePluginsKeepRegistered | packages/browser-shell/src/registry-v1.ts:68-84 | adding plugins never takes REGISTERED from another |
| PluginStatus.PluginTable.constructor | packages/browser-shell/src/registry-v1.ts:66-68 | a new table is empty |
| PluginStatus.PluginTable.Register | packages/browser-shell/src/registry-v1.ts:77-84 | conflicts, repeated ids and the 65th plugin change nothing; otherwise the plugin is added, the answer is its exact status, and ids and paths stay unique |
| PluginStatus.NamesAreUnique | packages/browser-shell/src/registry-v1.ts:77-81 | so across the whole shell a contribution id names one contribution of one plugin, and so does a path |
| RenderLifetimes.StepKeeps | packages/browser-shell/src/registry-v1.ts:40-124 | every step of every interleaving keeps the accounting of cleanups, except `retireAll` on a closed registry with a leftover |
| RenderLifetimes.RunKeeps | packages/browser-shell/src/registry-v1.ts:90-124 | so does every run without such a call |
| RenderLifetimes.ExactlyOnce | packages/browser-shell/src/registry-v1.ts:40-124 | no cleanup runs twice, a cell owns at most one lifetime, between events the cleanups not yet run are exactly those of the open map, and after closing every cleanup has run once |
| RenderLifetimes.NoRetireAfterCloseIsClean | packages/browser-shell/src/registry-v1.ts:44-47 | a caller that does not retire after closing has only such runs |
| RenderLifetimes.RetireAllKeepsIff | packages/browser-shell/src/registry-v1.ts:44-47 | `retireAll` keeps the accounting if and only if it is not aimed at a closed registry with a leftover |
| RenderLifetimes.Unwind | packages/browser-shell/src/registry-v1.ts:35-47 | from any state the stack unwinds undisturbed, and every disposal that it holds runs its cleanup |
| RenderLifetimes.LeftoverRunsTwice | packages/browser-shell/src/registry-v1.ts:44-47 | from every such state, re-entrant calls included, a cleanup that has run runs again |
| RenderLifetimes.CleanupCanRunTwice | packages/browser-shell/src/registry-v1.ts:44-107 | and such a state is reached from a new registry: a concrete run calls one cleanup twice |
| RenderLifetimes.UnregisterRuns | packages/browser-shell/src/registry-v1.ts:119-123 | left undisturbed, `unregister` takes out, aborts and cleans up once exactly the lifetimes of its plugin, and leaves all else as it was |
| RenderLifetimes.StepPlaced | packages/browser-shell/src/registry-v1.ts:40-124 | every step of every interleaving, clean or not, keeps entries and stack frames in place, and awaited lifetimes pending unless a factory throws in a closed registry while its cell is awaited |
| RenderLifetimes.OverwritesPendingIff | packages/browser-shell/src/registry-v1.ts:99-117 | for the next event: lifetimes about to be overwritten stay pending if and only if it is not that throw |
| RenderLifetimes.OverwrittenAlwaysPendingIff | packages/browser-shell/src/registry-v1.ts:99-117 | over any run of a new registry they are pending at every moment if and only if that throw never happens |
| RenderLifetimes.OverwrittenIsPending | packages/browser-shell/src/registry-v1.ts:99-101 | in any case a lifetime overwritten by a re-entrant render has no cleanup, leaves the map, and is pending as long as the registry is open |
| RenderLifetimes.OverwrittenCanBeSettled | packages/browser-shell/src/registry-v1.ts:93-117 | and the throw happens: a run from a new registry after which a render that has failed is about to be overwritten |
| RenderLifetimes.OutStaysOut | packages/browser-shell/src/registry-v1.ts:90-124 | a lifetime that left the map never returns to it, over any run |
| RenderLifetimes.OutIsDisposedWhenSettled | packages/browser-shell/src/registry-v1.ts:103-117 | and when its render is fulfilled or rejected, or its factory throws, it is disposed, cleanup and all |
| ContextOwner.RelyIsTransitive | packages/browser-shell/src/extended-context-owner-v1.ts:25-34 | what one re-entrant call may do, any number of them may do |
| ContextOwner.Owner.constructor | packages/browser-shell/src/extended-context-owner-v1.ts:20-23 | a new owner holds its initial context and nothing else |
| ContextOwner.Owner.OnDispose | packages/browser-shell/src/extended-context-owner-v1.ts:50-56 | at most 64 listeners, one registration per callback, and a second request for it changes nothing |
| ContextOwner.Owner.Unregister | packages/browser-shell/src/extended-context-owner-v1.ts:54-55 | removes exactly its own registration, never a later one of the same callback |
| ContextOwner.Owner.Retire | packages/browser-shell/src/extended-context-owner-v1.ts:25-34 | everything pending is aborted, every listener registered at the start is called exactly once, whatever the callbacks do in between, and those that throw are counted |
| ContextOwner.Owner.Reenter | packages/browser-shell/src/extended-context-owner-v1.ts:28-32 | any finite sequence of nested public calls keeps the invariant and the rely condition |
| ContextOwner.Owner.SwitchContext | packages/browser-shell/src/context-owner-v1.ts:64-71 | refused exactly when closed or at the epoch limit; otherwise the next epoch holds the new context and the old one is retired |
| ContextOwner.Owner.Replace | packages/browser-shell/src/extended-context-owner-v1.ts:57-65 | refused exactly when closed, of another binding, or at the limit; an equal context changes nothing; any other retires the old one |
| ContextOwner.Owner.Close | packages/browser-shell/src/extended-context-owner-v1.ts:83 | the first call closes and retires, later ones change nothing |
| ContextOwner.Owner.Admitted | packages/browser-shell/src/extended-context-owner-v1.ts:35-47 | true exactly when the request is current before and after the live predicate, that predicate said yes, and the lease contains both clock readings |
| ContextOwner.PassesMeans | packages/browser-shell/src/extended-context-owner-v1.ts:35-47 | what admission takes, spelled out, with the ends of the lease |
| ContextOwner.Owner.StartRun | packages/browser-shell/src/extended-context-owner-v1.ts:66-80 | refused exactly when closed or with 8 pending; otherwise the operation is called if and only if the first admission passes and nothing aborted it meanwhile, it is awaited if and only if it is called and does not throw, and a throw is reported as such if and only if the second admission passes; the handle is bound to the context and sequence number of the start |
| ContextOwner.Owner.FinishRun | packages/browser-shell/src/extended-context-owner-v1.ts:74-81 | answers with the context exactly when admission passes, and then it is the owner's current one; the operation is pending no more |
| ContextOwner.Owner.StartRead | packages/browser-shell/src/context-owner-v1.ts:72-92 | the same bounds for a backend read, awaited if and only if the call does not throw; a throw counts as an unavailable backend if and only if the request is still current |
| ContextOwner.Owner.FinishRead | packages/browser-shell/src/context-owner-v1.ts:78-93 | three checks around re-entrant getters amount to one check in the final state; a delivered context is the owner's current one |
| ContextOwner.AnswerMeans | packages/browser-shell/src/context-owner-v1.ts:82-91 | access is denied on 401 and 403 only, a value is delivered on 200 only, anything else is an unavailable backend |
| ContextOwner.Owner.Drive | packages/browser-shell/src/extended-context-owner-v1.ts:15-85 | any sequence of public calls and of continuations with handles issued before is a run in the sense of the next three rows; every response that delivers a context had that context current in every state since its start |
| ContextOwner.NoStaleDelivery | packages/browser-shell/src/extended-context-owner-v1.ts:66-82 | over any run, a request that passes its last check saw no switch, replacement, close or abort at any moment since it began |
| ContextOwner.CalledAtMostOnce | packages/browser-shell/src/extended-context-owner-v1.ts:25-34 | over any run a listener is called at most once, and an unregistered one never again |
| ContextOwner.FixedKeysNeverChange | packages/browser-shell/src/extended-context-owner-v1.ts:57-60 | over any run every context in force has the seven binding keys of the first |
| Texts.AtMostIff | packages/contracts/src/canonical-json.js:11 | a key comes before another exactly if it is a prefix of it or has the smaller code unit where they first differ |
| Texts.AtMostIsTransitive | packages/contracts/src/canonical-json.js:11 | this order is transitive |
| Texts.AtMostIsAntisymmetric | packages/contracts/src/canonical-json.js:11 | and tells different texts apart |
| Texts.SortIsSorted | packages/contracts/src/canonical-json.js:11 | sorting puts keys in order |
| Texts.SortsAgree | packages/contracts/src/canonical-json.js:11 | two lists sort alike exactly when they are permutations of each other |
| Json.CharsRoundTrip | packages/contracts/src/canonical-json.js:2 | every string, lone surrogates and control characters included, is read back from its escaped form |
| Json.NumberRoundTrip | packages/contracts/src/canonical-json.js:3-6 | every integer is read back from its decimal form, before anything but a digit |
| Json.ValueRoundTrip | packages/contracts/src/canonical-json.js:1-16 | every value is read back from its text, wherever that text stands |
| Json.ParsePrint | packages/contracts/src/canonical-json.js:1-16 | parsing undoes `JSON.stringify`, member order included |
| Json.PrintIsInjective | packages/contracts/src/canonical-json.js:1-16 | so equal texts mean equal values |
| JsonForms.ShortEscapes | packages/contracts/src/canonical-json.js:2 | the seven code units with an escape of their own, and which it is |
| JsonForms.EscapeAlone | packages/contracts/src/canonical-json.js:2 | other controls and lone surrogates print as `\u` and four lower-case digits, everything else as it is |
| JsonForms.EscapeConcat | packages/contracts/src/canonical-json.js:2 | strings are escaped piece by piece where no surrogate pair is cut; with `EscapePair` this fixes the text of every string |
| JsonForms.PrintForms | packages/contracts/src/canonical-json.js:1-16 | the text of every value in plain characters, without white space and in member order |
| CanonicalJson.CanonicalIsPrint | packages/contracts/src/canonical-json.js:1-16 | the recursive printer prints the value with its members sorted at every depth |
| CanonicalJson.NormalIsSorted | packages/contracts/src/canonical-json.js:11-15 | and sorted members come in the code-unit order of their keys |
| CanonicalJson.NormalAgree | packages/contracts/src/canonical-json.js:11-15 | sorted forms are equal exactly when the values are equal as JSON values |
| CanonicalJson.CanonicalAgrees | packages/contracts/src/canonical-json.js:1-16 | equal canonical texts mean equal values, and any reordering of keys at any depth leaves the text unchanged |
| CanonicalJson.CanonicalRoundTrip | packages/contracts/src/canonical-json.js:1-16 | parsing the canonical text gives the value back, up to key order |
| SetDigest.TuplesDigestAgrees | src/cks/governed-assets-v1.ts:1257-1294 | the digest of sorted tuples identifies their multiset and nothing else |
| SetDigest.TuplesDigestPermutes | src/cks/knowledge-revalidation-v1.ts:461-468 | the order of the tuples leaves no trace in the digest, whatever they contain |
| SetDigest.RefSetDigest | src/cks/governed-assets-v1.ts:1257-1269 | the loop digests the four-field tuples of the references |
| SetDigest.RefSetDigestsAgree | src/cks/governed-assets-v1.ts:1257-1269 | two reference arrays have one digest exactly when they are permutations on (kind, id, version, digest) |
| SetDigest.ValidateRefArray | src/cks/governed-assets-v1.ts:1435-1466 | passes exactly when every reference is exact and no two share those four fields; reports a duplicate exactly when two exact references do |
| SetDigest.ValidRefSetsAgree | src/cks/governed-assets-v1.ts:1257-1269 | for arrays without duplicates the digest identifies the set |
| SetDigest.KnowledgeSetDigest | src/cks/governed-assets-v1.ts:1272-1294 | the loop digests the nine-field tuples of the dependencies |
| SetDigest.KnowledgeSetDigestsAgree | src/cks/governed-assets-v1.ts:1272-1294 | two dependency arrays have one digest exactly when they are permutations on all nine fields |
| TupleForms.RefSetText | src/cks/governed-assets-v1.ts:1257-1269 | the digested text is the list of the tuples (kind, id, version, digest), in the order of their texts |
| TupleForms.KnowledgeSetText | src/cks/governed-assets-v1.ts:1272-1294 | the digested text is the list of the nine-field tuples, in the order of their texts |
| TupleForms.DependencySetText | src/cks/knowledge-revalidation-v1.ts:461-468 | the digested text is the list of the tuples (kind, knowledgeId, version, digest, freshness, scope), in the order of their `JSON.stringify` texts |
| KnowledgeRevalidation.Judge | src/cks/knowledge-revalidation-v1.ts:417-456 | the filters and early exits give one binding the verdict that its order-free definition names |
| KnowledgeRevalidation.VerdictIsUnique | src/cks/knowledge-revalidation-v1.ts:417-456 | a binding has exactly one verdict, however the records are ordered |
| KnowledgeRevalidation.VerdictMeans | src/cks/knowledge-revalidation-v1.ts:417-456 | each of the seven verdicts, read on its own: exactly what it says of the records |
| KnowledgeRevalidation.StatusMeans | src/cks/knowledge-revalidation-v1.ts:470-478 | allowed without a reason, aborted when only malformed or ambiguous dependencies are to blame, revalidation otherwise |
| KnowledgeRevalidation.BindingKeysAgree | src/cks/knowledge-revalidation-v1.ts:275-284 | two subjects share a key exactly when kind and all binding fields agree, in whatever order their windows list their keys |
| KnowledgeRevalidation.Resolve | src/cks/knowledge-revalidation-v1.ts:371-485 | the nested loops yield exactly the due reasons in their fixed order, the first copy of every backed binding in input order, the status that the reasons imply, and the digest of those bindings as they are written |
| KnowledgeRevalidation.SurvivorsAreBacked | src/cks/knowledge-revalidation-v1.ts:408-459 | up to key order, the resolved dependencies are exactly the backed bindings, each once |
| KnowledgeRevalidation.SurvivorsInOrder | src/cks/knowledge-revalidation-v1.ts:408-459 | they come in input order, and of several copies the first survives as it is written |
| KnowledgeRevalidation.AllowedIffBacked | src/cks/knowledge-revalidation-v1.ts:408-484 | allowed exactly when no binding repeats within its kind in any key order, and each has exactly one record of its identity, with an equal window, current and in force |
| KnowledgeRevalidation.OrderIsIrrelevant | src/cks/knowledge-revalidation-v1.ts:408-484 | permuting bindings or records changes neither status nor reasons nor, up to key order, the dependencies |
| KeyOrder.DigestIsOrder | src/cks/knowledge-revalidation-v1.ts:461-468 | two lists of dependencies have one digest exactly when, up to key order, sorting brings their tuples into one order |
| KeyOrder.KeyOrderIff | src/cks/knowledge-revalidation-v1.ts:461-468 | for every input, over all ways to write its windows: key order is irrelevant to the digest if and only if no two different backed bindings agree on (kind, knowledgeId, version, digest) |
| KeyOrder.OrderIff | src/cks/knowledge-revalidation-v1.ts:408-468 | for every input, over all permutations of bindings and records: order is irrelevant to the digest if and only if every two backed bindings compare alike in all copies that the input holds of them |
| KeyOrder.SafeInputs | src/cks/knowledge-revalidation-v1.ts:408-468 | so it is irrelevant when all windows list their keys alike, or when no two backed bindings agree on those four fields |
| KeyOrder.CopiesCanFlipDigest | src/cks/knowledge-revalidation-v1.ts:408-468 | and relevant for every two such bindings that are given in both key orders: permuting the four changes the digest that resolution returns |
| KeyOrder.DigestIdentifiesDependencies | src/cks/knowledge-revalidation-v1.ts:461-468 | equal digests always mean equal dependencies up to key order, and with one key order the converse holds too |
| FastPathRoute.Route | src/cks/governed-assets-v1.ts:2619-2741 | the cascade and its two loops compute the route table |
| FastPathRoute.RouteAllowedIff | src/cks/governed-assets-v1.ts:2619-2741 | allowed exactly when all conditions hold together, and NONE is the reason exactly then |
| FastPathRoute.RefusalIsFirstFault | src/cks/governed-assets-v1.ts:2635-2738 | a refusal reports the first fault of a fixed list, and asks for revalidation exactly when that fault can be cured |
| FastPathRoute.NarrowingKeepsAllowed | src/cks/governed-assets-v1.ts:2701-2738 | fewer requests, wider envelopes, fewer requirements or more grants never take an allowed route away |
| WorkflowApplicability.ValidateTypedInputs | src/cks/workflow-applicability-v1.ts:449-484 | INVALID, MISSING and VALID exactly by consistency and completeness of the inputs against their declarations |
| WorkflowApplicability.SelectedIsOnlyFit | src/cks/workflow-applicability-v1.ts:636-681 | one match is selected exactly when one match alone fits context and contract |
| Envelopes.SortedSetDigestsAgree | src/cks/workflow-applicability-v1.ts:335-338 | the digest of the sorted digests of some entries identifies their multiset and nothing else |
| Envelopes.CapabilityEnvelopesAgree | src/cks/workflow-applicability-v1.ts:340-347 | capability envelopes have one digest exactly when ceilings and enabled capabilities agree as multisets |
| Envelopes.AuthorityEnvelopesAgree | src/cks/workflow-applicability-v1.ts:349-355 | authority envelopes have one digest exactly when requirements and grants agree as multisets, field by field |
| WorkflowApplicability.UnchangedIff | src/cks/workflow-applicability-v1.ts:335-355 | the gate's two digest comparisons pass exactly when both envelopes are unchanged as multisets |
| WorkflowApplicability.Evaluate | src/cks/workflow-applicability-v1.ts:555-763 | the gate, comparing envelope digests and calling Knowledge resolution and the route table, computes its decision function |
| WorkflowApplicability.AllowedIffNone | src/cks/workflow-applicability-v1.ts:377-411 | a decision allows exactly when its reasons are NONE alone, and a refusal always names another reason |
| WorkflowApplicability.AllowedIff | src/cks/workflow-applicability-v1.ts:555-763 | the end-to-end condition over envelopes, inputs, matches, Knowledge, time, evidence and boundary, and the workflow that is then named |
| WorkflowApplicability.RevalidationIff | src/cks/workflow-applicability-v1.ts:555-763 | revalidation is asked for exactly when all else is in order and Knowledge has drifted, or holds at another time, or evidence or boundary is missing |
| ApplicabilityRefusals.RefusalIsFirstObstacle | src/cks/workflow-applicability-v1.ts:555-763 | of fifteen obstacles in their order, stated on the input alone, a refusal reports the first, with exactly its status and reasons: all faults of all dependencies if it is Knowledge, a single reason otherwise |
| ApplicabilityRefusals.AllowedIffClear | src/cks/workflow-applicability-v1.ts:555-763 | the fast path is allowed exactly when none of them stands |
| ApplicabilityOrder.OrderIsIrrelevant | src/cks/workflow-applicability-v1.ts:335-763 | reordering any list of the input leaves status, reasons and the named workflow as they are |
| ShadowReplay.DependenciesAgree | src/cks/shadow-workflow-replay-v1.ts:560-564 | dependency snapshots have one digest exactly when they agree on everything but key order |
| ShadowReplay.SameKnowledgeIff | src/cks/shadow-workflow-replay-v1.ts:543-552 | the three digest comparisons pass exactly when the snapshot records the Knowledge inputs of the gate, in their order |
| ShadowReplay.NoFailuresIsParity | src/cks/shadow-workflow-replay-v1.ts:554-580 | the six comparisons pass exactly when outputs and dependencies are equal JSON values, the other projections agree, quality is no worse and cost strictly lower |
| ShadowReplay.FailuresMean | src/cks/shadow-workflow-replay-v1.ts:554-580 | which difference between the projections gives which of the six reasons |
| ShadowReplay.Judge | src/cks/shadow-workflow-replay-v1.ts:628-721 | one turn of the loop rejects a holdout exactly when it does not show what its kind has to show, and adds exactly the reasons due: the gate's own, a dependency mismatch, the failed comparisons, or a missing safe abort |
| ShadowReplay.AddedIffRejected | src/cks/shadow-workflow-replay-v1.ts:628-721 | a holdout adds reasons exactly when it is rejected, and never NONE |
| ShadowReplay.Replay | src/cks/shadow-workflow-replay-v1.ts:602-745 | every result, both counts, the verdict, and exactly the reasons: NONE alone if verified, otherwise the union of what the holdouts add and of the three closing rules |
| ShadowReplay.ClosingReasons | src/cks/shadow-workflow-replay-v1.ts:722-736 | where every holdout holds, NOT_APPLICABLE and SAFE_ABORT_REQUIRED are reported exactly for a missing kind of holdout or a required reason that none expects |
| ShadowReplay.VerifiedIff | src/cks/shadow-workflow-replay-v1.ts:602-745 | parity is verified exactly when there is a holdout of each kind, all of them hold, and every required reason was actually given to a refused holdout; and exactly then the reasons are NONE |
| DeepLink.EncodeRoundTrip | packages/browser-shell/src/deep-link-v1.ts:26-29 | form-urlencoding of ASCII text is undone by decoding and contains no separator |
| DeepLink.PairsRoundTrip | packages/browser-shell/src/deep-link-v1.ts:26-36 | a printed query is split back into the same pairs |
| DeepLink.RevisionRoundTrip | packages/browser-shell/src/deep-link-v1.ts:36-38 | every revision from 1 to 999999999 passes the pattern and reads back |
| DeepLink.BuiltLinksAreShort | packages/browser-shell/src/deep-link-v1.ts:25-32 | every link that can be built has at most 984 characters |
| DeepLink.BuildThenParse | packages/browser-shell/src/deep-link-v1.ts:25-42 | a checked link of this context and a registered path is read back as it was |
| DeepLink.ParseThenBuild | packages/browser-shell/src/deep-link-v1.ts:25-42 | whatever text a link was read from, building it gives a text that reads the same |
| DeepLink.LinkOfIff | packages/browser-shell/src/deep-link-v1.ts:35-41 | what the decoded pairs have to say for a link to come out: no unknown and no repeated key, tenant and session of the context, given or not, object and revision together and well formed |
| DeepLink.ParseIff | packages/browser-shell/src/deep-link-v1.ts:31-42 | exactly which texts are accepted, and as what: `#`, a registered path, at most one query that says so, within the length limit; no link of another tenant or session ever is |
| DeepLink.BuildForm | packages/browser-shell/src/deep-link-v1.ts:25-30 | the text of a link, parameter by parameter |
| DeepLink.QueryForm | packages/browser-shell/src/deep-link-v1.ts:35 | how any query is split into pairs |
| SyscallFilter.DenyListRuns | scripts/pan576-kernel-guard.c:51-80 | any deny list runs as a first-match search, wherever it stands in the program |
| SyscallFilter.ProgramComputesTable | scripts/pan576-kernel-guard.c:52-84 | for every architecture, call, argument and deny list the program ends at a return inside the array with what the table says |
| SyscallFilter.FirstMatchFinds | scripts/pan576-kernel-guard.c:51 | a listed call gets the error of its earliest line, an unlisted one passes |
| SyscallFilter.SealedFilter | scripts/pan576-kernel-guard.c:52-81 | the list in force, 68 instructions, on every input: foreign architectures, x32, clone3, threads and processes, the 27 blocked calls, and all others |

## Left out

Updater:

- Signatures, OpenSSL, tar parsing, file modes, fsync and power loss. Admission is a parameter that promises a version above the floor, a time not before the last one, and well-formed fields (scripts/offline-artifact.py:115-122).
- Whether a resumed bundle is admitted again is a parameter of every command; convergence is stated for the case that it is.
- File names with 20 digits and the directory sort: file k of the journal is the k-th in order. A torn file is an empty one, and the size limit of a journal file is not modelled.
- The content of a slot: a slot is its manifest digest, and checking it is comparing that digest.
- Waiting for the lock, the lock-free `status` reader, `launch`, the native profile, and the partial migration files, which nothing reads.
- A retained bundle directory from a try before PREPARED blocks the same bundle; that retry is modelled as refused and nothing is claimed for it.

Browser shell:

- RenderLifetimes.ExactlyOnce: is stated for runs without `retireAll` on a closed registry with a leftover, because the code breaks it there; RetireAllKeepsIff gives the exact condition.
- RenderLifetimes is a machine over values and not a class: its subject is the order in which suspended stack frames continue, and a frame has to be data for that. The order in which a Map yields its values is left open.
- What `render` answers, and to whom a fault is reported: a lifetime's states are modelled, the outcome values are not.
- Which plugin and factory a contribution id selects, and the status check before a render, are not repeated in the lifetime machine: a render starts with its cell.
- PluginStatus.PluginTable.Register: takes descriptor validation and the kinds of factories as done.
- ContextOwner.Owner.Reenter: nests public calls to any finite depth, as the JavaScript stack does; continuations after an `await` run with an empty stack and are not nested.
- Validation of contexts, phases and option types; JSON comparison of contexts is equality of values. In the basic owner a context is its four fields.

JSON and digests:

- Numbers other than integers. For safe integers JavaScript prints plain decimals, which is what the model prints.
- Proxies, prototypes, sparse arrays, undefined members, and the safety checks of `safeJsonClone`.
- SetDigest.ValidateRefArray: takes the field checks of one reference as a parameter.

Fast path:

- Shape and pattern checks of single strings, digests and timestamps are flags of the inputs; receipts are opaque, and so are verification outcomes and rollback plans.
- ApplicabilityOrder.OrderIsIrrelevant: says nothing of the decision digest. It covers the Knowledge decision, which lists its inputs and dependencies in the order given and so does depend on it; the dependency set digest in it is the subject of KeyOrder.
- Decision digests elsewhere.
- Envelopes.SortedSetDigestsAgree: represents a hex digest by the content that it identifies, so digests sort in another order here; only that sorting forgets the order matters.
- Reason lists of the gate and of shadow replay are sets, since the code always lists them in one fixed order.
- The window, scopes and counterexamples of an applicability contract are only shape-checked by the code, and gate nothing.

Compilers:

- Decoding of percent-escaped bytes above 127: such a byte becomes a character outside ASCII, which every later check refuses.
- The Landlock and N-API calls around the filter, and installing it.

Not modelled: `src/cks-12`, `src/analytics`, function extraction and parity, release building, native profiles, DOM and workspace views, navigation and cards, network fetches.
