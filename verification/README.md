# Verified model of the p11scope checkers and coordinators

p11scope ships BPF programs, Python checkers that decide whether a compiled object may ship, and
coordinators that stop, snapshot and clean up live processes. This project models the hard logic of
those checkers and coordinators in Dafny and proves what they are relied on for. Each module follows
one component.

| module | component |
|---|---|
| `SpanPaths`, `RawSpan` | the path-sensitive walk over decoded instructions, and the raw ia32 reader it is used on |
| `StopGate` | the admission gate of hook invocations and its test for quiescence |
| `Disasm` | disassembled functions, their control flow, and the machine they run on |
| `ArgumentFacts` | the stack addresses and constants the decoder tracks up to call sites |
| `FlagsProvenance`, `ClassProvenance`, `ClassMeaning` | the two dataflow checks of the interface classifier, and what acceptance says about the exported bytes |
| `UsageTransition` | the 0-to-1 transition of the shared usage cell |
| `Rollback`, `Acquisition`, `Publication` | the ledger of acquisition files, its removal, and publication as a transaction |
| `OrphanDrain`, `Custody` | custody of processes: STOP debts, wait ownership, drain and shutdown |
| `BtfSize`, `MapDefinitions` | type sizes in possibly cyclic BTF tables, and the map section decoder |
| `LoadReport`, `PairedMedian` | load scoring by object, and the paired overhead estimator |

`Options` and `Numbers` hold what several of these share.

Checkers are proved in both directions where possible: acceptance implies a statement about every
concrete execution, and refusal has a stated reason. Coordinators are classes and methods in which
every system call may fail; failures are parameters (`Rollback`, `Acquisition`, `Publication`,
`Custody`) or come from a table of failing calls (`OrphanDrain`). So the contracts say both what holds
whatever fails and that an operation succeeds when nothing does.

The concrete BPF machine follows RFC 9669: sections 3.1 and 3.2 (encodings), 4.1 and 4.3 (arithmetic,
jumps and calls), 5.3 (atomic operations) and 5.4 (64-bit immediates).

## Where the code does not do what one would like

Each of these is a lemma with a concrete case, next to the exact condition under which the property
holds.

- Reading the gate word `1<<63` as quiescence is right exactly below 2^63 participants
  (`StopGate.QuiescenceSoundIff`, `StopGate.OverflowLooksQuiescent`).
- A removal pass that fails to unlink the manifest goes on to unlink the surfaces it still names
  (`Publication.ManifestStranded`). Readers are safe exactly if no pass does this
  (`Rollback.SweepSafeIff`, `Publication.Coordinator.Run`).
- Between the identity check and the unlink a replaced file is lost (`Rollback.ForeignFileLost`).
  Passes unlink only their own files exactly if nothing is replaced in that window
  (`Rollback.OnlyOwnFilesIff`).
- A file whose `fstat` and `lstat` both fail right after creation stays out of the ledger, and a
  staging directory whose `lstat` fails is never removed (`Acquisition.AcquisitionFiles.Write`,
  `Acquisition.StageGoes`).
- The instruction decoder ignores `gotol`, `callx` and legacy packet loads; exactly those forms
  break the fact transfer (`RawSpan.UnmodelledIsNotCovered`). For the guard before
  the user read only a `gotol` to a place that is not a decoded edge matters
  (`RawSpan.ReadNeedsGuard`), and an accepted body with one can skip the guard
  (`RawSpan.GotolBypassesGuard`). An accepted body with a `callx` can return something else than the
  sentinel for a rejected address (`RawSpan.CallxLosesSentinel`).
- The argument tracking of the discovery decoder keeps what it knows of a stack slot across calls and
  across stores through pointers it does not know. A helper that reads over a spilled pointer makes
  the fact false (`ArgumentFacts.SpillLost`). Such an instruction keeps the facts true exactly if it
  changes no slot that holds one (`ArgumentFacts.UnseenStepIff`); where all of them do, all facts the
  class check looks at are true (`ArgumentFacts.ArgumentsAreTrue`), and the computed facts themselves
  can show it before the code runs (`ArgumentFacts.ApartIsTrue`).
- The refusal "rejection path has no sentinel return" cannot occur: `SpanPaths.ValidateSpanPaths`
  contains the proof.
- The cycle checks of `Btf.resolve` and `Btf.size`, and the visited set of the usage validator,
  decide nothing that the depth limits and the growing cursor do not already decide
  (`BtfSize.Resolve`, `BtfSize.SizeIsSizeBy`, `UsageTransition.FollowQuiet`).
- The alignment test of the map decoder decides nothing: contiguous 28-byte rows are aligned
  (`MapDefinitions.DecodeSorted`).
- The usage validator does not look for jumps into the pinned block. A jump behind the place where
  the replacement is set can write anything: `UsageTransition.LateBody` is an accepted body and a run
  of it, step by step as the machine makes them, in a map with the cell alone. The at-most-once theorem
  holds for all bodies without a reachable jump there. It holds for these only, if outside the blocks
  registers may be changed by any instruction and the map may have a second entry, both of which the
  runs that show it use (`UsageTransition.OneTransitionIff`).
- An orphan drain reaps an adopted child nobody has waited for, and its group goes on saying that the
  coordinator is to wait for it (`Custody.HandoffDrained`). It does so exactly to such children
  (`Custody.Custody.DrainOrphans`).
- A process whose start failed stays on the list unsettled, so `close` can no longer return normally
  (`Custody.Custody.Close`).

## Model

| member | source | states |
|---|---|---|
| SpanPaths.Walk | scripts/check-bpf-map-defs.py:1235-1261 | the walk ends on every finite graph although the fact domain is unbounded; a report is faithful to the product graph (no cycle, no bad node on any run, exactly the facts that arrive at the guard), a refusal has a run that justifies it |
| SpanPaths.ExpandIsLighter | scripts/check-bpf-map-defs.py:1235-1261 | replacing an item by its successors lowers the weight of the stack, the termination measure |
| SpanPaths.RunDescends | scripts/check-bpf-map-defs.py:1235-1261 | along any run the finishing order of the walk strictly descends, so the explored graph has no cycle |
| SpanPaths.FinishedIsFaithful | scripts/check-bpf-map-defs.py:1235-1261 | an empty stack means every reachable node was examined and every run is safe and bounded |
| SpanPaths.SafeRunsReturn | scripts/check-bpf-map-defs.py:1262-1267 | safe bounded runs of the second walk reach an exit, so its report always has a return |
| SpanPaths.ValidateSpanPaths | scripts/check-bpf-map-defs.py:1224-1268 | acceptance: no run bypasses the guard and from every fact at the guard the rejected runs are safe, bounded and end with the sentinel; refusal: one of the walks has a bad run or never meets the guard |
| RawSpan.Decode | scripts/check-bpf-map-defs.py:1275-1297 | the decoded graph and exits are exactly those of the instruction starts |
| RawSpan.StepIsCovered | scripts/check-bpf-map-defs.py:1298-1322 | every machine step of a decoded instruction follows a decoded edge and keeps the eleven register facts true |
| RawSpan.UnmodelledIsNotCovered | scripts/check-bpf-map-defs.py:1298-1322 | each undecoded form has a step that leaves the graph or falsifies a fact; the bodies this lets through are shown by `GotolBypassesGuard` |
| RawSpan.Simulate | scripts/check-bpf-map-defs.py:1224-1268 | an execution up to the guard is a run of the product graph with true facts |
| RawSpan.Guards | scripts/check-bpf-map-defs.py:1271-1275 | finds exactly the address comparisons before the read |
| RawSpan.ValidateRawSpan | scripts/check-bpf-map-defs.py:1271-1327 | acceptance gives one sole guard and a proven span; refusal names a missing or second guard, a broken wide immediate or a refuted walk |
| RawSpan.ReadNeedsGuard | scripts/check-bpf-map-defs.py:1271-1327 | in every execution from slot 0 of an accepted body whose gotols go where the decoder thinks, whatever loads and helpers answer and whatever becomes of the registers, the user read is not executed before the guard |
| RawSpan.GotolBypassesGuard | scripts/check-bpf-map-defs.py:1271-1327 | another gotol is enough to break that: an accepted body that performs the user read without meeting the guard |
| RawSpan.RejectedReturnsSentinel | scripts/check-bpf-map-defs.py:1271-1327 | if the first arrival at the guard is rejected, the execution never reads, never gets stuck or runs on, and exits with r0 = 2^32 |
| RawSpan.CallxLosesSentinel | scripts/check-bpf-map-defs.py:1271-1327 | without modelled instructions that is lost: an accepted body with a `callx` whose rejected run exits with r0 = 7 |
| RawSpan.GuardCompares | scripts/check-bpf-map-defs.py:1271-1327 | the guard rejects exactly addresses in r3 above the bound in r1 |
| StopGate.WordCounts | scripts/check-discovery-flow-object.py:147-197 | in every interleaving of fewer than 2^63 participants the word is the stop bit plus the number of invocations between +1 and -1 |
| StopGate.QuiescentExactly | scripts/capture-stopped-canary.py:556-575 | the word is 1<<63 exactly when the gate is stopped and nothing is in flight |
| StopGate.StaysClosed | crates/ebpf/native/stop_gate.h:28-64 | once stopped with nobody admitted, nobody is ever admitted again |
| StopGate.QuiescenceIsFinal | scripts/capture-stopped-canary.py:556-575 | after the word was 1<<63 nobody is inside for the rest of the run |
| StopGate.OverflowLooksQuiescent | src/attach/stop_gate.rs:143-153 | with 2^63 participants a run reaches 1<<63 with participants inside |
| StopGate.QuiescenceSoundIff | scripts/capture-stopped-canary.py:556-575 | the inference is sound for all runs if and only if there are fewer than 2^63 participants |
| Disasm.Reachable | scripts/check-live-discovery-object.py:449-458 | computes exactly the positions with a path from the start |
| Disasm.RunReaches | scripts/check-live-discovery-object.py:429-447 | every execution follows the control-flow graph |
| ArgumentFacts.CallArgumentFacts | scripts/check-live-discovery-object.py:963-1049 | the work list ends on every graph with facts that hold on along every edge, and misses none that is there on every path, however much else is known |
| ArgumentFacts.FactsStep | scripts/check-live-discovery-object.py:981-1031 | if no unseen write meets a slot with a fact, the facts about registers and slots are true after a step, with 32- and 64-bit wrap-around |
| ArgumentFacts.UnseenStepIff | scripts/check-live-discovery-object.py:984-1000 | a call, or a store through an unknown pointer, keeps the facts true if and only if it changes no slot that holds one |
| ArgumentFacts.FactsAlong | scripts/check-live-discovery-object.py:963-1049 | the facts at every place are true whenever an execution without such writes is there |
| ArgumentFacts.ArgumentsAreTrue | scripts/check-live-discovery-object.py:963-1049 | in such an execution every pointer and size the class check looks at is what it was told, which is what its theorems assume |
| ArgumentFacts.ApartIsTrue | scripts/check-live-discovery-object.py:963-1049 | if the computed facts keep every such write clear of the slots with facts, this is so in every execution |
| ArgumentFacts.SpillLost | scripts/check-live-discovery-object.py:984-1000 | a function that reads user memory over a spilled frame pointer: the decoder says that r2 is the frame pointer, and an execution arrives with whatever was read |
| FlagsProvenance.Solve | scripts/check-discovery-flow-object.py:411-431 | the work list ends on every graph, cyclic ones included, with the least fixpoint |
| FlagsProvenance.ClampTaken | scripts/check-discovery-flow-object.py:466-473 | the taken edge of the clamp is taken with r6 below 2 only |
| FlagsProvenance.FixpointIsSound | scripts/check-discovery-flow-object.py:401-436 | any fixpoint that proves the builder makes r6 one of 0, 1, 2 at first arrival in every execution |
| FlagsProvenance.LeastDecides | scripts/check-discovery-flow-object.py:432-436 | if the least fixpoint does not prove it, no assignment of value sets does |
| FlagsProvenance.Check | scripts/check-discovery-flow-object.py:401-436 | acceptance: every execution arrives with r6 in {0, 1, 2}; refusal: midway entry, builder not reached, or unprovable by any fixpoint |
| ClassProvenance.LaneOfApply | scripts/check-discovery-flow-object.py:311-313 | bits 16..23 are a homomorphism for move, or, and, xor at both widths |
| ClassProvenance.WriteFlagsHolds | scripts/check-discovery-flow-object.py:314-325 | the overlapping-store rule keeps the facts about both flag words true |
| ClassProvenance.StepHolds | scripts/check-discovery-flow-object.py:326-370 | whatever one instruction does, the transferred facts are true afterwards |
| ClassProvenance.Solve | scripts/check-discovery-flow-object.py:371-385 | the shrinking work list ends with the greatest fixpoint over positions and path histories |
| ClassProvenance.GreatestDecides | scripts/check-discovery-flow-object.py:386-398 | if the greatest fixpoint does not justify the builder, no fixpoint does |
| ClassProvenance.FixpointIsSound | scripts/check-discovery-flow-object.py:276-398 | a good fixpoint makes every execution arrive with the class of its own path and both flag words clear |
| ClassProvenance.CheckAcyclic | scripts/check-discovery-flow-object.py:276-307 | accepts exactly the acyclic classifiers |
| ClassProvenance.Check | scripts/check-discovery-flow-object.py:276-398 | acceptance: acyclic, builder entered from the top and reached, every execution arrives with the class of its path; refusal: one of these fails, or no fixpoint proves the class |
| ClassMeaning.RecordMetaHasClass | scripts/check-discovery-flow-object.py:517-545 | in every execution of an accepted classifier that comes to the call of emit_export, its first argument points to record_meta and bits 16..23 of it are the class of the path |
| ClassMeaning.ExactClassMeansExactName | scripts/check-discovery-flow-object.py:482-545 | class 1 arrives only after a string read that returned 8 and left the exact eight bytes of the name |
| ClassMeaning.ReadDecidesClass | scripts/check-discovery-flow-object.py:482-545 | after a string read, in every execution, the class is 4 if the read failed, 1 if it returned 8 and the exact name, and 2 otherwise |
| ClassMeaning.NullClassMeansNoName | scripts/check-discovery-flow-object.py:474-546 | an execution arrives with class 3 exactly if it comes from the guard, and the name pointer was null there |
| ClassMeaning.ClassTable | scripts/check-discovery-flow-object.py:474-546 | the class of every execution of an accepted classifier: what the read deserves if there was one, 3 if the name was null, 4 if it was neither read nor null |
| UsageTransition.FollowQuiet | scripts/check-bpf-map-defs.py:1578-1594 | the follower ends and accepts exactly the paths that zero the result, jump forward and exit |
| UsageTransition.Validate | scripts/check-bpf-map-defs.py:1532-1594 | accepts exactly the bodies whose only compare-exchange lies in a pinned block behind a lookup that is relocated to the usage map |
| UsageTransition.BlockStep | scripts/check-bpf-map-defs.py:1547-1577 | in both instruction orders one step of a thread that came in at the top keeps the lookup pointer, the expected 0 and the replacement 1, and changes the cell only from 0 to 1, having seen it at 0 |
| UsageTransition.OrderlyAlong | scripts/check-bpf-map-defs.py:1547-1577 | lifted to runs: in programs entered at the top only, every thread inside its block holds these at every moment of every interleaving, and one behind its load has loaded what it remembers from the cell, in this run |
| UsageTransition.LoadedZeroFirst | scripts/check-bpf-map-defs.py:1532-1594 | in every such run the cell is changed only from 0 to 1, by a thread that loaded 0 from it earlier in the run |
| UsageTransition.OneTransition | scripts/check-bpf-map-defs.py:1532-1594 | for any number of whole bodies and any interleaving from 0, if no body is entered behind the place where the replacement is set, the cell is 0 or 1, never goes back and is changed at most once |
| UsageTransition.AlreadyOne | scripts/check-bpf-map-defs.py:1578-1594 | in every such run a thread that looked up the cell and loaded 1 from it is forced to walk forward to an exit with r0 = 0, and leaves the cell alone, whatever others do to it |
| UsageTransition.OneTransitionIff | scripts/check-bpf-map-defs.py:1532-1594 | over all maps and all register contents outside the blocks, the cell is changed only from 0 to 1 and at most once in every run if and only if no reachable instruction outside a block leads behind the place where its replacement is set |
| UsageTransition.LateRun | scripts/check-bpf-map-defs.py:1532-1594 | a body that is entered there has a run that writes 3 into the cell, with registers chosen outside the block and a second map entry |
| UsageTransition.LateBody | scripts/check-bpf-map-defs.py:1532-1594 | a concrete accepted body with a jump to the exchange, and a run of machine steps in a map with the cell alone that writes 3 |
| Rollback.RetainedInOrder | scripts/capture-stopped-canary.py:790-806 | whatever fails or interferes, kept entries stay in ledger order |
| Rollback.OnlyOwnFilesIff | scripts/capture-stopped-canary.py:796-800 | passes unlink only files with the recorded identity if and only if no path is replaced between look and unlink |
| Rollback.ForeignFileLost | scripts/capture-stopped-canary.py:796-800 | a file put in place in that window is unlinked |
| Rollback.SweepRemoves | scripts/capture-stopped-canary.py:790-806 | an undisturbed pass removes exactly the covered ledger paths whose removal does not fail |
| Rollback.SweepClaims | scripts/capture-stopped-canary.py:790-806 | a ledger path that survives a pass is still in the ledger with the same identity |
| Rollback.SweepEmpties | scripts/capture-stopped-canary.py:790-806 | without failures a full pass empties the ledger and reports no issue |
| Rollback.NothingRefused | scripts/capture-stopped-canary.py:790-806 | a pass of any scope in which nothing fails reports no issue |
| Rollback.Unrefused | scripts/capture-stopped-canary.py:790-806 | a pass that reports no issue removed everything it covers |
| Rollback.SweepSafeIff | scripts/capture-stopped-canary.py:790-806 | every world of a full pass has the manifest only with its surfaces, if and only if the manifest's removal works or no surface is removed |
| Acquisition.AcquisitionFiles.CreateStage | scripts/capture-stopped-canary.py:743-746 | succeeds exactly if the directory can be made and its identity read; makes one new directory beside the files and keeps the books |
| Acquisition.AcquisitionFiles.Write | scripts/capture-stopped-canary.py:748-770 | succeeds exactly if the bound, the exclusive open, the look-ups and the write allow it; total never exceeds the bound; a created file is in the ledger unless both look-ups fail, and is leaked then; only one path changes; success means the exact bytes |
| Acquisition.AcquisitionFiles.Adopt | scripts/capture-stopped-canary.py:772-783 | enters an existing regular file with its present identity, and nothing else |
| Acquisition.AcquisitionFiles.Publish | scripts/capture-stopped-canary.py:785-788 | links without replacing and enters the link with the identity of the staged file |
| Acquisition.AcquisitionFiles.SweepLedger | scripts/capture-stopped-canary.py:790-806 | the loop is one sweep of the ledger, world by world |
| Acquisition.AcquisitionFiles.Remove | scripts/capture-stopped-canary.py:790-814 | keeps the books if undisturbed; without failures restores names, identities and contents but for adopted and leaked files, empties the ledger and removes a known stage |
| Acquisition.RemoveRestores | scripts/capture-stopped-canary.py:790-814 | the same as a statement about worlds and ledgers |
| Acquisition.StageGoes | scripts/capture-stopped-canary.py:807-814 | the staging directory goes if and only if its identity is known, nothing fails and it is empty |
| Acquisition.StagedGoes | scripts/capture-stopped-canary.py:790-814 | if nothing fails, removing the staged part reports no issue and leaves no staging directory |
| Publication.SweepTold | scripts/capture-stopped-canary.py:1286-1288 | one more removal pass and the run still knows whether the manifest stands and whether readers were ever misled |
| Publication.ManifestStranded | scripts/capture-stopped-canary.py:790-806 | a pass that fails on the manifest leaves it without a surface it names |
| Publication.Coordinator.Rollback | scripts/capture-stopped-canary.py:866-878 | a full removal keeps that knowledge |
| Publication.Coordinator.CreateControl | scripts/capture-stopped-canary.py:817-828 | creates a control file exactly if its name is free and the call works, without entering it in the ledger and without touching another name |
| Publication.Coordinator.Acquire | scripts/capture-stopped-canary.py:1014-1130 | succeeds exactly if no step fails, names are distinct and the bytes fit the bound; then every file is staged complete; the manifest is not touched either way |
| Publication.Coordinator.Start | scripts/capture-stopped-canary.py:1187-1204 | log, GO and acquisition in order: which control files are created, and success exactly if no step fails |
| Publication.Coordinator.LinkSurfaces | scripts/capture-stopped-canary.py:1143-1149 | links staged files in ledger order; succeeds exactly if no step fails and no public name is taken; then all are public, complete and in the ledger |
| Publication.Coordinator.LinkManifest | scripts/capture-stopped-canary.py:1154-1158 | succeeds exactly if no step fails, the bytes fit and the staged name is free; the world in which the manifest appears already has every surface with the staged bytes |
| Publication.Coordinator.RemoveStaged | scripts/capture-stopped-canary.py:1159-1162 | removing what is staged never touches what is public, on the way or at the end; succeeds if no removal fails |
| Publication.Coordinator.Publish | scripts/capture-stopped-canary.py:1143-1162 | publication as a whole: success means that no step failed, and it succeeds if no step and no removal fails |
| Publication.Coordinator.Run | scripts/capture-stopped-canary.py:1164-1291 | for every script of failures: every intermediate world is safe for readers if and only if no pass removes a surface while the manifest stands; the manifest is left exactly if it was linked and every pass failed on it; which of the three passes are made; in the end there is what was there before, with its contents, the control files that were created (which these are), and what is still in the ledger: the manifest and its surfaces after a normal return, nothing after a pass without failures; a normal return means that no step failed, and a run without failures returns normally |
| OrphanDrain.PinWave | scripts/canary_process_custody.py:588-615 | the whole wave is pinned and validated before anything is done to it, and every child is pinned, blocked or failed |
| OrphanDrain.ReapWave | scripts/canary_process_custody.py:623-643 | every pinned child is reaped or blocked, only after a kill was attempted on it in the same wave; every descriptor is closed, and the processes gone are exactly the reaped ones |
| OrphanDrain.WaveProgress | scripts/canary_process_custody.py:588-643 | each wave strictly shrinks the processes that are neither gone nor blocked |
| OrphanDrain.Drain | scripts/canary_process_custody.py:571-644 | the drain ends for every finite forest that no longer forks; kills and reaps only what was pinned in the same wave, and reaps only after a kill was attempted; ends with every remaining child blocked or a failed census; returns without error only if it saw no child; if no call fails no child is left |
| Custody.OwnedProcess.Wait | scripts/canary_process_custody.py:320-325 | succeeds exactly if the process started and a status comes; the kernel gives the status out once and the child is gone with it; settles the process for good |
| Custody.OwnedProcess.Terminate | scripts/canary_process_custody.py:327-360 | one attempt; exactly when it settles the process and when it succeeds; a process that never started never settles |
| Custody.Group.Stop | scripts/canary_process_custody.py:257-275 | a STOP is sent exactly if the group is open, owes nothing and no check fails, and is then owed |
| Custody.Group.Resume | scripts/canary_process_custody.py:287-296 | a CONT is sent exactly if owed and the send works, at most one per STOP |
| Custody.Group.ResumeOrExit | scripts/canary_process_custody.py:287-305 | the same, for groups with and without a process of their own, where the owned wait may settle the process instead |
| Custody.Group.Close | scripts/canary_process_custody.py:307-311 | a descriptor is closed at most once, even if close fails, and fails only then |
| Custody.Custody.Enter | scripts/canary_process_custody.py:389-411 | a scope opens once, and for a coordinator without children; a failed or cancelled entry closes it for good |
| Custody.Custody.Pin | scripts/canary_process_custody.py:417-437 | the group is on the list before its descriptor is opened |
| Custody.Custody.Launch | scripts/canary_process_custody.py:522-539 | starts a process exactly in an open, unsealed scope without helper or cancellation; it becomes a child under a number never used before; a failed start stays on the list |
| Custody.Custody.RetainObserverChild | scripts/canary_process_custody.py:449-476 | retains exactly the only child of a live direct observer, without taking its wait |
| Custody.Custody.AdoptObserverChild | scripts/canary_process_custody.py:478-496 | takes the wait exactly if the observer settled with status 0 and the child has become a child of the coordinator |
| Custody.Custody.WaitObserverChild | scripts/canary_process_custody.py:498-520 | reaps an adopted child exactly if it is still a child and the polls see it exit; it is then gone; at most once, and only after its observer settled with status 0; in an open scope a signal before or between the polls, and nothing else, cancels it |
| Custody.ObserversFirstAll | scripts/canary_process_custody.py:560-563 | the default order names every group once |
| Custody.Custody.ResumeAll | scripts/canary_process_custody.py:557-569 | every retained group gets exactly one attempt for any order, malformed ones included; succeeds exactly if the order is well formed and every group resumes |
| Custody.Custody.DrainOrphans | scripts/canary_process_custody.py:571-644 | refused, without any effect, while spawning is open, a helper waits or a direct child is unsettled; otherwise the drain; it makes a group stale only if that is an adopted child not yet waited for, and without failures exactly these |
| Custody.HandoffDrained | scripts/canary_process_custody.py:571-644 | the drain can reap an adopted child: a concrete run after which its group still says that the coordinator is to wait for it |
| Custody.Custody.TerminateAll | scripts/canary_process_custody.py:697-702 | every direct process gets one attempt whatever became of the others; succeeds exactly if every attempt does |
| Custody.Custody.TerminateProcess | scripts/canary_process_custody.py:327-360 | one process, with the books of the scope kept |
| Custody.Custody.CloseGroups | scripts/canary_process_custody.py:707-711 | afterwards every descriptor is closed |
| Custody.Custody.Close | scripts/canary_process_custody.py:688-716 | whatever fails, the scope ends closed and inactive, every group and process with one more attempt; a normal return means all settled, no child, no debt, no cancellation; if nothing fails it returns normally |
| Custody.AnyRun | scripts/canary_process_custody.py:184-716 | after any operations in any number and order with any failures, and whatever other processes do meanwhile: STOPs minus CONTs is 0 or 1 and is what is owed, one close, one handoff, drains in order, and waits agree with the kernel |
| Custody.KinAgrees | scripts/canary_process_custody.py:313-644 | no process is reaped twice across waits, handoffs and drains; a direct process is a child until its status is taken and no Reap of a drain names it; an adopted child is a child or was taken by a drain |
| BtfSize.Resolve | scripts/check-bpf-map-defs.py:184-200 | finds what fewer than 64 modifiers lead to; circles lead nowhere |
| BtfSize.CycleResolvesNowhere | scripts/check-bpf-map-defs.py:184-200 | a circle of modifiers resolves to nothing at any depth |
| BtfSize.CycleHasNoSize | scripts/check-bpf-map-defs.py:202-227 | a type that contains itself has no size at any depth |
| BtfSize.SizeIsSizeBy | scripts/check-bpf-map-defs.py:202-227 | the size with remembered references equals plain recursion to the remaining depth |
| BtfSize.SizeMeans | scripts/check-bpf-map-defs.py:202-227 | a returned size is the size by structure |
| BtfSize.HasOneSize | scripts/check-bpf-map-defs.py:202-227 | the size by structure is unique |
| BtfSize.ContainsItself | scripts/check-bpf-map-defs.py:202-227 | types that contain themselves are refused |
| BtfSize.PointerToItself | scripts/check-bpf-map-defs.py:219-222 | pointers have size 8 whatever they point to; a list node is accepted |
| BtfSize.Size | scripts/check-bpf-map-defs.py:202-227 | ends on every table, and a size lies in 1..2^32-1 |
| BtfSize.PartInside | scripts/check-bpf-map-defs.py:207-218 | every member, bit field and element, however deep, is not empty and lies inside the type |
| BtfSize.StoredMember | scripts/check-bpf-map-defs.py:207-218 | width and offset come apart as they were stored |
| BtfSize.MemberPart | scripts/check-bpf-map-defs.py:207-218 | every member of a sized composite has its place, at its offset and with its size or width |
| MapDefinitions.SortedOnce | scripts/check-bpf-map-defs.py:417-421 | sorted lists of the same symbols are the same list |
| MapDefinitions.SelectedCounts | scripts/check-bpf-map-defs.py:417-421 | a symbol is selected as often as the table has its object in the section, and nothing else is |
| MapDefinitions.DecodeSorted | scripts/check-bpf-map-defs.py:422-441 | the loop accepts exactly contiguous 28-byte rows with distinct names that fill the section |
| MapDefinitions.Decode | scripts/check-bpf-map-defs.py:416-441 | accepts exactly the symbol lists that tile the section, and gives each name its row |
| MapDefinitions.DecodeReordered | scripts/check-bpf-map-defs.py:416-441 | neither the order of the symbol table nor its other symbols matter |
| MapDefinitions.UnpackPacked | scripts/check-bpf-map-defs.py:437-437 | unpacking seven little-endian words inverts packing |
| MapDefinitions.RoundTrip | scripts/check-bpf-map-defs.py:416-441 | laying out any named definitions and decoding gives exactly these names with their definitions, whatever order and whatever other symbols the table has |
| LoadReport.AssignMeans | scripts/bpf-load-report.py:226-295 | the decision list finds the only kind with a unique root, Journal with or without Detailed, and ambiguity exactly for other mixes |
| LoadReport.OneOwner | scripts/bpf-load-report.py:349-424 | a group supplies coverage to one kind of object only, unless it has shared roots only |
| LoadReport.Select | scripts/bpf-load-report.py:349-424 | selects exactly the loads of groups the object takes, and reports exactly the stray groups |
| LoadReport.Score | scripts/bpf-load-report.py:459-494 | a row passes exactly if every duplicate is loaded, measured and within budget and headroom |
| LoadReport.Evaluate | scripts/bpf-load-report.py:427-513 | the rows are a function of the set of loads alone |
| LoadReport.CleanReport | scripts/bpf-load-report.py:427-513 | a report without failures means every budgeted root was loaded and every selected load is within bounds or the expected refusal |
| PairedMedian.PairedDeltas | scripts/bench-count-overhead-analyze.py:185-200 | the loop collects the deltas round by round and refuses exactly if arms do not pair |
| PairedMedian.RoundDeltas | scripts/bench-count-overhead-analyze.py:298-306 | a shaped round with linear drift gives one delta a drift below and one a drift above the effect |
| PairedMedian.ShapedRounds | scripts/bench-count-overhead-analyze.py:287-297 | in a shaped cell the paired rounds are all rounds |
| PairedMedian.SymmetricMedian | scripts/bench-count-overhead-analyze.py:397-397 | the median of a list symmetric about a centre is the centre |
| PairedMedian.PairedEstimate | scripts/bench-count-overhead-analyze.py:185-200 | for every number of rounds the gate accepts, base and drift per round cancel and the paired median is exactly the effect |

## Left out

- ArgumentFacts.CallArgumentFacts: follows stack addresses and constants only, not results of calls, cookies and branch facts, which nothing here looks at; the step of the source is not monotone, so no greatest solution is claimed.
- ArgumentFacts.FactsAlong: an immediate loads what is printed, so wide immediates that are relocated are left out; no instruction writes r10, which the kernel does not allow.
- Matching of recipes against disassembly text: positions come as a plan, and the matched instructions as predicates (`ClassMeaning.Matched`, `FlagsProvenance.IsClamp`).
- The null-lookup paths of the gate: entering and leaving always find the one cell.
- Scheduling of the gate's participants: no liveness is claimed.
- RawSpan.UnmodelledIsNotCovered: leaves out a `gotol` whose distance is zero or equals its unused offset field, which is covered by accident.
- UsageTransition.OneTransitionIff: outside the pinned block a program follows the decoded edges and does anything to its registers, but does not write the cell; which bodies with a late jump misbehave in a map with one entry is not decided; the undecoded jump forms are left out here too.
- UsageTransition.LateRun: its run is one of that model, not of the machine; `LateBody` has one of the machine.
- Rollback.Sweep: attempts on one path in one pass share one outcome, and other processes act only around the two system calls of an attempt.
- Publication.Coordinator.Run: other processes do not touch the acquisition's own names (its staging directory, the manifest, the surfaces and the three control files); what the observer and the workload write under other names of the directory, such as `.output`, `.ready` and `.done`, is not part of a world; the contents of the manifest are any bytes, and its surfaces are the files that were staged.
- Reuse of process numbers: a pid of the model stands for a number together with its generation.
- The processes a helper starts and waits for itself during its interval.
- Reading `/proc`, clocks and signals: observations and deadlines may come out any way; the two-sample confirmation after STOP and CONT is one such observation.
- Custody.Custody.Close: the restoration of signal handlers and subreaper is one step that may fail.
- Chaining of exceptions, error texts, and the order of report rows.
- LoadReport.Evaluate: the frozen root tables are a parameter, and reading of JSON rows and budgets is not modelled.
- BtfSize.Size: the table parser is not modelled; out-of-range references are refused on the way.
- Floating-point rounding and the bootstrap interval of the benchmark: costs are exact reals.
- The Rust program, the BPF sources apart from the gate, build scripts and the other checkers.
