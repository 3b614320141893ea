# Verified models of the effected kit

This project models, in Dafny, the parts of the repository whose correctness
rests on more than one function, and proves what their documentation and tests
promise. `dafny verify dfyconfig.toml` checks all of it.

## What is modelled

**The run-once lock** (`RunOnce*.dfy`). Processes on one host share a lock
file, a done marker and breaker tickets. `RunOnceMachine` is the protocol as a
suspended generator: one control point for each request it makes. `RunOnceWorld`
runs any number of such machines over a directory of paths bound to inodes, with
arbitrary schedules, arbitrary delays, crashes at any moment, failing file
operations that may leave debris, reads of texts and of times that may fail,
writes that stamp the file with the time their text lands or do not,
listings in any order, leftover files of any content, and any mix of once and
serialize callers. `RunOnceHost` is the same
file system changed in place. The main results are in `RunOnceGuarantees`; they
rest on the inductive invariants of `RunOnceMutex` (mutual exclusion, one owner,
one breaker), `RunOnceTrust` and `RunOnceMarkers` (whom a caller trusts) and
`RunOnceQuiescence` (nothing is left behind). Beside them stand `RunOnceInodes`
(files by identity), `RunOnceNames` (the file-name grammar) and `RunOnceDriver`
(the synchronous driver).

`RunOnceGenerator` is the same protocol as it is written: straight code that
asks for one thing after another, in parts that return values. On all answers
whatever, the suspended machine asks for what that code asks for and ends as it
ends (`MachineIsGenerator`). `RunOnceOutcomes` tells from a caller's exchanges
alone how it ends: which answers send it to work without the lock, what a poll's
evidence leads to, and what precedes work under the lock. `RunOnceAccounts` gives
every process of every run its exchanges, so these hold in runs: nobody works
alone for want of a lock unless its own make-directory or create failed, and
nobody gives up waiting before the time.

The timing limits are hypotheses on a run, and each is exact. `Stalls` bounds how
old a live owner's lock may grow (`ownMs`), how long a live creator is between
its create and its check (`createMs`), and how long a live breaker holds its
ticket (`breakMs`). `FileSystem` says which reads of a file that is there may
fail, and whether a write stamps the file with the time its text lands. A
liveness probe may call a dead process alive, never a live one dead. The limits
suffice (`Suffices`) when

- `breakMs <= staleMs`, and texts and times do not both fail to be read; and
- `ownMs <= staleMs`; or texts can be read, `ownMs <= staleMs + waitTimeoutMs`,
  and nobody stalls long enough to mistake a lock without its text for a stale
  one: `createMs <= staleMs` where writes stamp, and
  `createMs + breakMs <= staleMs` where they do not.

The shipped hosts create a file first and write it afterwards, and age it by its
modification time (`packages/commands/src/node-sync.ts:196-225`,
`packages/commands/src/RunOnce.ts:702-745`), so their writes stamp. There, as
long as texts can be read, the limits the documentation gives (an owner within
`staleMs + waitTimeoutMs`, no creator and no breaker past `staleMs`) are enough,
and exact (`DocumentedLimits`). The sum of the two stalls is needed only where a
landing leaves the file the time of its create, as in the model checker's file
system (`packages/commands/__test__/runOnceModel.ts:283-297`): a breaker may then
read a text that is not there yet, and next an age that is already old. Where a
text may be unreadable only the age is left to judge by, and an owner must stay
within `staleMs`. For every other choice of limits `RunOnceLimits` builds a run
that keeps within them and has a breaker about to move the lock of an owner at
its work, out of the phases of `RunOncePhases`; `RunOnceAftermath` follows it to
a lock that is left behind and to a marker that is not heeded. So the safety of
the work, the exclusion of breakers, heeding the marker and tidiness each hold
in every run if and only if the condition stated for it does, on both kinds of
file system.

**The explorer** (`Explorer*.dfy`), the bounded model checker beside the
protocol: a depth-first search that replays each schedule from scratch and is
driven only by a stack of choices. The system it explores is any deterministic
function. `ExplorerReduction` asks what is lost by never preempting a process
just before a local request: nothing, in schedules without crashes that run to
their end, if local requests commute with the steps of others up to whatever no
move and no check looks at; a violation, if they read a clock that the others
move.

**The linear URL scan** (`UrlScan`), against the regular expression it
replaces, with a count of character inspections.

**Scrubbing by value** (`Redaction`, `RedactionTrace`), **line splitting of
growing text** (`LinesFrom`) and **ranges** (`FmtRanges`).

**The config-file pipeline**: the deep merge and its fold (`ConfigMerge`),
migrations (`ConfigMigration`), the service with its rules and its event trace
(`ConfigFile`, `ConfigRules`, `ConfigEvents`), and concurrent updates (`ConfigUpdates`, `ConfigComposition`).
Codec, schema, validation and merge strategy are arbitrary functions; the laws a
theorem needs are its hypotheses.

**The evidence cache** of synchronous tool discovery (`ToolDiscovery`), and the
**catalog literal** that a reader and an in-place writer must agree on
(`CatalogText`, `CatalogRules`, `CatalogRipples`, `CatalogLocality`). Two properties one would
expect of a balanced literal in which each name occurs once and each entry
declares a range are false where entries nest, because reader and writer take the
first range in a body for the entry's own. That applying the ripples leaves no
mismatch: `NestedStaysStale` gives a literal, and `RipplesCureExactly` the exact
condition. That the edits touch only the two fields of the mismatched entries:
`NestedIsMiswritten` gives a literal in which another entry's range is rewritten
and the reader is satisfied. The edits keep to own fields exactly when the first
range and peer stand directly in each edited entry (`EditsKeepToOwnExactly`), and
then do what was planned and nothing else (`OwnFieldsRewritten`).

Scrubbing leaves no secret in a text exactly when the secret neither begins nor
ends with the placeholder's character and does not contain the placeholder
(`SafeExactly`); any other can be put together by its own or another's removal.

## Model

| member | source | states |
|---|---|---|
| RunOnceGuarantees.MutualExclusion | packages/commands/src/RunOnce.ts:383-462 | In every state of every run within limits that suffice, with any crashes, any failing operations and any number of processes, no two live processes are inside serialized work, and the lock path holds the running owner's own record |
| RunOnceGuarantees.OneOwner | packages/commands/src/internal/runOnceMachine.ts:521-549 | Within limits that suffice, from its create to its release a live owner is the only one, and its file is the one at the lock path |
| RunOnceGuarantees.OneBreaker | packages/commands/src/internal/runOnceMachine.ts:340-394 | At most one live breaker is past its scan when tickets stay within `staleMs` and never fail both their reads, whatever becomes of the locks |
| RunOnceGuarantees.TicketsAreExact | packages/commands/src/internal/runOnceMachine.ts:333-394 | Breakers exclude one another in every run if and only if `breakMs <= staleMs` and a ticket's text and time cannot both fail to be read |
| RunOnceMutex.InvAlways | packages/commands/src/internal/runOnceMachine.ts:475-554 | The inductive invariant (nonces, owners, tickets, evidence in hand) holds in every state of every run within limits that suffice |
| RunOnceGuarantees.LimitsAreExact | packages/commands/src/RunOnce.ts:424-462 | Serialized work is safe in every run within the given stalls on the given file system, and so is every lock its live owner's, if and only if they suffice, whether writes stamp files or not |
| RunOnceGuarantees.DocumentedLimits | packages/commands/src/RunOnce.ts:424-462 | Where writes stamp files, as the shipped hosts' do, and texts can be read, work is safe in every run if and only if owners stay within `staleMs + waitTimeoutMs` and creators (or owners altogether) and breakers within `staleMs`: the documented limits |
| RunOnceGuarantees.UnsafeBeyond | packages/commands/src/internal/runOnceMachine.ts:401-426 | For all other stalls, and on each kind of file system, there is a run within them that displaces the lock of an owner at its work |
| RunOnceLimits.BothStall | packages/commands/__test__/runOnceModel.ts:283-297 | Where landings do not stamp files, a creator and a breaker whose stalls together outlive `staleMs`: the breaker reads a text that is not there yet, then an age that is |
| RunOnceLimits.CreatorStallsLong | packages/commands/src/internal/runOnceMachine.ts:401-426 | On either file system, a creator that outstays `staleMs` alone: the breaker reads no text and an old age before the text lands |
| RunOnceLimits.SlipsPast | packages/commands/src/internal/runOnceMachine.ts:377-390 | A breaker that outlives its ticket, or whose ticket can be read neither for text nor for time, is passed by another |
| RunOnceLimits.OwnsForLong | packages/commands/src/internal/runOnceMachine.ts:172-196 | An owner at its work is judged breakable once its lock outgrows `staleMs + waitTimeoutMs`, or `staleMs` where its text cannot be read |
| RunOnceTickets.OneClearedBreaker | packages/commands/src/internal/runOnceMachine.ts:346-352 | Of two contenders that finished listing, the later lister saw the earlier one's ticket, so only one proceeds |
| RunOnceGuarantees.TrustedOutcomes | packages/commands/src/RunOnce.ts:391-394 | In every run, whatever its timing, a `Trusted` outcome names an owner whose work succeeded and, without `trustSequentialMs`, one whose lock this caller read; a serialize caller is never `Trusted` |
| RunOnceGuarantees.MarkersAreOnceCallers | packages/commands/src/RunOnce.ts:415-417 | No serialize caller writes the done marker, and every marker on disk names a once caller whose work succeeded |
| RunOnceGuarantees.NeverRunsDespiteObservedDone | packages/commands/__test__/runOnceModel.ts:359-364 | Within limits that suffice and where texts can be read, a once caller inside its serialized work never faces a marker naming an owner it read at the lock path |
| RunOnceGuarantees.HeedingIsExact | packages/commands/__test__/runOnceModel.ts:359-364 | That holds in every run if and only if texts can be read and the limits suffice, whether writes stamp files or not; otherwise a run is given in which it fails |
| RunOnceGuarantees.NothingLeftBehind | packages/commands/__test__/runOnceModel.ts:443-454 | Within limits that suffice, in a run with no crash and no failed operation, once all have ended, every lock, ticket or tomb in the directory is one that was there at the start |
| RunOnceGuarantees.NothingPutBack | packages/commands/src/internal/runOnceMachine.ts:306-315 | In such a run, within such limits, no lock is ever put back: what was moved aside is what was judged |
| RunOnceGuarantees.TidinessIsExact | packages/commands/__test__/runOnceModel.ts:443-454 | Both hold in every run with no crash and no failed operation if and only if the limits suffice, whether writes stamp files or not; otherwise such a run puts a lock back for nobody, and one leaves it |
| RunOnceInodes.PathsShareNoInode | packages/commands/__test__/runOnceModel.ts:173-182 | In every run no two paths ever name one inode |
| RunOnceInodes.TextFollowsFile | packages/commands/__test__/runOnceModel.ts:278-320 | Pending text lands on the file it was opened for, under whatever name it has by then, and on no other |
| RunOnceInodes.FileMovesByRename | packages/commands/__test__/runOnceModel.ts:321-327 | An existing file gets another name only by a rename from the name it had |
| RunOnceHost.FileTable.Respond | packages/commands/__test__/runOnceModel.ts:249-336 | The in-place file system gives each request the answer, and leaves the disk and the pending text, that the protocol's world assumes |
| RunOnceHost.FileTable.Bind | packages/commands/__test__/runOnceModel.ts:173-178 | Binding a path allocates the next inode, empty |
| RunOnceHost.FileTable.Land | packages/commands/__test__/runOnceModel.ts:347-350 | Pending text replaces the text of its own inode only, and leaves its time as it was |
| RunOnceSafety.LiveOwnerNotBreakable | packages/commands/src/internal/runOnceMachine.ts:172-178 | A poll that reads a live owner's lock within the age limits never finds it breakable |
| RunOnceTickets.HolderNotAbandoned | packages/commands/src/internal/runOnceMachine.ts:333-338 | The evidence read of a live holder's ticket never condemns it |
| RunOnceNames.SpellInjective | packages/commands/src/internal/runOnceMachine.ts:200-216 | The file-name grammar is unambiguous across all keys, dots in them included |
| RunOnceNames.TicketsToldApart | packages/commands/src/internal/runOnceMachine.ts:218-231 | A key's ticket test accepts exactly its own tickets among the files of every key |
| RunOnceNames.TombsToldApart | packages/commands/src/internal/runOnceMachine.ts:233-241 | A key's tomb test accepts exactly its own tombs, and reads back the time of the rename |
| RunOnceGenerator.MachineIsGenerator | packages/commands/src/internal/runOnceMachine.ts:244-554 | On all answers whatever, the suspended machine asks for exactly what the generator asks for, waits where it waits and ends with its outcome |
| RunOnceOutcomes.LockUnavailableExactly | packages/commands/src/internal/runOnceMachine.ts:494-526 | A caller goes to work for want of a lock exactly when it could not make the directory or its own create of the lock failed |
| RunOnceOutcomes.CreateDecides | packages/commands/src/internal/runOnceMachine.ts:521-526 | After a caller's own create, told from the nonce and time read before it: a new lock is read back, the loser of a race polls again, a failure goes to work alone |
| RunOnceOutcomes.TrustExactly | packages/commands/src/internal/runOnceMachine.ts:158-171 | A poll ends the call trusting an owner exactly when the marker it read names one whose record the caller had read with its age, or is within `trustSequentialMs` |
| RunOnceOutcomes.ObservedIsWatched | packages/commands/src/internal/runOnceMachine.ts:409-424 | Until it releases, a caller's trust set is exactly the owners its own exchanges read at the lock path or in a tomb |
| RunOnceOutcomes.PollDecides | packages/commands/src/internal/runOnceMachine.ts:158-181 | A poll that trusts no marker creates an absent lock, gives up past `waitTimeoutMs` after the clock that set the deadline, takes over a forfeit lock, and otherwise waits |
| RunOnceOutcomes.TimedOut | packages/commands/src/internal/runOnceMachine.ts:498-510 | A caller gives up waiting only after it read the lock as held, at a clock past the deadline |
| RunOnceOutcomes.RanUnderLock | packages/commands/src/internal/runOnceMachine.ts:521-552 | A caller that ran created the lock itself, read it back or repaired it, found no marker of an owner it watched, and then worked |
| RunOnceOutcomes.WorkedOnce | packages/commands/src/internal/runOnceMachine.ts:480-554 | No caller is asked to work twice |
| RunOnceAccounts.AloneByRefusal | packages/commands/src/internal/runOnceMachine.ts:494-526 | In every run, a process at or past work for want of a lock had its own make-directory or lock create fail |
| RunOnceAccounts.SmoothNeverUnlocked | packages/commands/src/internal/runOnceMachine.ts:525-526 | In a run where no operation fails, nobody works for want of a lock, however many race for it |
| RunOnceAccounts.AloneByTimeout | packages/commands/src/internal/runOnceMachine.ts:180-180 | In every run, a process at or past work for having waited read the lock as held, and read a clock more than `waitTimeoutMs` past the one that set its deadline |
| RunOnceAccounts.RanHeldLock | packages/commands/src/internal/runOnceMachine.ts:521-552 | In every run, a process past its work under the lock was at that work, under the lock it had created and seen confirmed |
| RunOnceAccounts.TrustedInRun | packages/commands/src/internal/runOnceMachine.ts:498-508 | In every run, a poll ends its call trusting an owner exactly when the marker it read is one to trust |
| RunOnceDriver.RunSync | packages/commands/src/RunOnce.ts:490-569 | What is said to the host is the generator's own talk, up to where it waits or ends; the work is called at most once, not at all exactly when another owner is trusted, and its own value, failure or throw, in the report of that outcome, is what the caller gets |
| Explorer.Explore | packages/commands/__test__/runOnceModel.ts:149-490 | The search visits leaves of the choice tree in strict lexicographic order, all of them unless capped, with `leaves + pruned` their number and the violations their tally; a cap stops it after that many and skips none |
| Explorer.Replay | packages/commands/__test__/runOnceModel.ts:158-169 | Replaying a stack reaches the first leaf below it |
| Explorer.Backtrack | packages/commands/__test__/runOnceModel.ts:477-484 | Backtracking moves the deepest choice that has an alternative, and everything below it was exhausted |
| Explorer.ListChoices | packages/commands/__test__/runOnceModel.ts:390-412 | The choices gathered are those each live process offers, in order |
| ExplorerTree.NeverStuck | packages/commands/__test__/runOnceModel.ts:418-422 | A schedule that has not ended always has an allowed choice, so the guard after the choice never fires |
| ExplorerTree.AllowedExactly | packages/commands/__test__/runOnceModel.ts:390-420 | The allowed choices are exactly the enabled moves that the preemption and crash budgets and the local-step reduction permit |
| ExplorerTree.LeavesAreOrdered | packages/commands/__test__/runOnceModel.ts:477-484 | Of two leaves one comes before the other |
| ExplorerBudget.LeavesAreSchedules | packages/commands/__test__/runOnceModel.ts:411-425 | The leaves are exactly the complete schedules with at most the allowed preemptions and crashes, counted on the schedule itself |
| ExplorerBudget.PathsAreSchedules | packages/commands/__test__/runOnceModel.ts:423-425 | On every path the remaining budgets are what the schedule has not used, and never negative |
| ExplorerBudget.PathsSpellOnce | packages/commands/__test__/runOnceModel.ts:157-169 | No schedule is explored twice |
| ExplorerBudget.ReportIsVerdict | packages/commands/__test__/runOnceModel.ts:433-490 | An uncapped report lists a violation exactly when some schedule within the budgets shows it |
| ExplorerReduction.ReductionMissesNothing | packages/commands/__test__/runOnceModel.ts:75-80 | Where a local request commutes with what others do, up to any relation that the moves and the checks respect, the exploration that never preempts before one shows a violation at the end of a crash-free schedule exactly when the full exploration with the same budgets does |
| ExplorerReduction.Rearranged | packages/commands/__test__/runOnceModel.ts:411-420 | Such a schedule can be rearranged into one that keeps to the reduction, with the same length, an end the relation does not tell apart, and no more preemptions |
| ExplorerReduction.ReductionCanMiss | packages/commands/__test__/runOnceModel.ts:75-80 | A system of two processes on one clock in which the reduction, at any preemption budget, hides a violation that one preemption shows |
| UrlScan.UrlsInText | packages/crypto/src/HttpRedaction.ts:66-90 | The scan gives exactly the regular expression's replacement, and inspects at most six characters per input character |
| UrlScan.FindScheme | packages/crypto/src/HttpRedaction.ts:73-75 | The walk finds the first letter of the scheme run and never goes below where the search resumed |
| UrlScan.AcceptedIsFirst | packages/crypto/src/HttpRedaction.ts:57-65 | An accepted span is the leftmost match, and the longest from there |
| UrlScan.RefusedHasNoHead | packages/crypto/src/HttpRedaction.ts:76-81 | A refused separator heads no match |
| UrlScan.RewriteIsLocal | packages/crypto/src/HttpRedaction.ts:84-89 | The matches are spans of the text, and whatever each is rewritten to, every character outside them is copied |
| Redaction.SafeExactly | packages/commands/src/Redaction.ts:48-60 | A secret is left in no text, among whatever other secrets, if and only if it neither begins nor ends with the placeholder's character and does not contain the placeholder |
| Redaction.NoSecretSurvives | packages/commands/src/Redaction.ts:48-60 | No such secret is left in the text, whatever the other secrets are |
| Redaction.UnsafeSurvives | packages/commands/src/Redaction.ts:93-96 | For every other secret there are a text and a set of secrets whose scrubbing puts it together |
| Redaction.ApplyIdempotent | packages/commands/src/Redaction.ts:97-99 | Scrubbing scrubbed text changes nothing when no secret begins or ends with the placeholder's character or contains the placeholder |
| Redaction.NothingAssembled | packages/commands/src/Redaction.ts:52-60 | Replacing one value never assembles such a secret, and leaves none of itself |
| Redaction.Prepare | packages/commands/src/Redaction.ts:39-49 | The prepared values are the non-empty secrets, longest first |
| Redaction.ReplaceAll | packages/commands/src/Redaction.ts:52-60 | The loop over the values is their replacement one after another |
| Redaction.ReplaceJoins | packages/commands/src/Redaction.ts:52-60 | Replacing a value is splitting the text on its leftmost occurrences and joining the pieces with the placeholder |
| Redaction.ApplyArgs | packages/commands/src/Redaction.ts:106-113 | Every argument is scrubbed as text is |
| Redaction.ScrubArgs | packages/commands/src/Redaction.ts:125-147 | An argument `name=value` with a secret name keeps its name and loses its value, the argument after a bare secret name is replaced, and every other one is unchanged, told on the arguments alone |
| Redaction.ScrubbedIs | packages/commands/src/Redaction.ts:125-147 | What stands at each place of the scrubbed arguments, from the spelling of it and of those before it |
| RedactionTrace.NoCharacterSurvives | packages/commands/src/Redaction.ts:39-49 | No character of an occurrence of a secret reaches the output when it overlaps no other occurrence of an equally long or longer secret, as long as those secrets cannot match across a placeholder |
| RedactionTrace.TraceFollowsText | packages/commands/src/Redaction.ts:52-60 | The trace of origins is a trace of the scrubbed text |
| LinesFrom.AllLines | packages/cli-kit/src/CliTest.ts:353-366 | For any growing snapshots, however many were skipped, the lines read are the newline-free pieces whose join is the final text, one return dropped from each terminated one, and the last as it is when it is not empty |
| LinesFrom.Read | packages/cli-kit/src/CliTest.ts:146-161 | One call gives the pieces after the offset that are terminated, each without its return, the rest as it is once the stream has ended, and the offset after them |
| LinesFrom.LinesAreShown | packages/cli-kit/src/CliTest.ts:147-161 | The lines of a text, finished or not, are told from any newline-free pieces whose join it is |
| LinesFrom.GoesOn | packages/cli-kit/src/CliTest.ts:361-364 | Going on from where a shorter snapshot's last line began gives the longer text's lines |
| LinesFrom.LinesArePieces | packages/cli-kit/src/CliTest.ts:147-161 | The terminated lines are the pieces between newlines, one return dropped from each |
| LinesFrom.PiecesJoin | packages/cli-kit/src/CliTest.ts:147-161 | The pieces put back with newlines are the text |
| FmtRanges.Ranges | packages/cli-kit/src/Fmt.ts:269-281 | The printed text parses back to maximal runs in ascending order that denote exactly the integers given |
| FmtRanges.PrintParses | packages/cli-kit/src/Fmt.ts:269-281 | Parsing undoes printing, negative bounds included |
| FmtRanges.PartIsPlain | packages/cli-kit/src/Fmt.ts:277-277 | A run of one number prints as that number alone, and a longer one as its two ends with a dash between |
| FmtRanges.NumberIsPlain | packages/cli-kit/src/Fmt.ts:277-277 | A number prints as a sign where it is negative and its digits, with no zero in front |
| FmtRanges.FewestParts | packages/cli-kit/src/Fmt.ts:256-264 | No list of runs for the same integers has fewer parts |
| FmtRanges.RunsDenote | packages/cli-kit/src/Fmt.ts:273-279 | The runs denote exactly the sorted integers |
| ConfigMerge.LayeredMerge | packages/config-file/src/MergeStrategy.ts:97-107 | The descending loop folds every source over those of lower priority |
| ConfigMerge.LeafSurvives | packages/config-file/src/MergeStrategy.ts:97-107 | A source's leaf is the merge's value at its path exactly when every source of higher priority merges with it at the top, lacks the path, and holds only mergeable records on the prefixes it has |
| ConfigMerge.NotAssociative | packages/config-file/src/MergeStrategy.ts:100-105 | Three sources whose two groupings differ: why `LeafSurvives` is stated for the direction the code folds in |
| ConfigMerge.MergeRecords | packages/config-file/src/internal/deepMerge.ts:104-142 | A merged record has the override's prototype and both sides' keys, the prototype keys dropped |
| ConfigMerge.AtomsComeFromParts | packages/config-file/src/ConfigMerge.ts:32-66 | A merge invents no value: every leaf is one side's leaf at that path |
| ConfigMerge.UnsparedIsOverridden | packages/config-file/src/ConfigMerge.ts:34-50 | What the override does not spare is its own |
| ConfigMigration.Parse | packages/config-file/src/ConfigMigration.ts:155-171 | The loop is the codec's parse, then the migration; each failure carries its phase, version and name, and a result is where a chain of documents leads in which every step's `up` and version write succeeded |
| ConfigMigration.StepsLead | packages/config-file/src/ConfigMigration.ts:162-168 | The steps give a document if and only if documents lead to it from the first, each step's `up` and then the write of its version taking one to the next |
| ConfigMigration.StepsFail | packages/config-file/src/ConfigMigration.ts:162-168 | The steps fail, with a phase, version and name, if and only if such documents lead to the step that failed so |
| ConfigMigration.MigrationLeads | packages/config-file/src/ConfigMigration.ts:155-171 | A migration gives a document if and only if the version could be read and the steps above it lead there; with no steps the version is not read |
| ConfigMigration.MigrationFails | packages/config-file/src/ConfigMigration.ts:155-171 | A migration fails if and only if the version could not be read or the steps above it fail so |
| ConfigMigration.ExactlyTheStepsAbove | packages/config-file/src/ConfigMigration.ts:150-162 | The steps that run are all those above the stored version, ascending, steps of one version in the order given |
| ConfigMigration.SortedIsStable | packages/config-file/src/ConfigMigration.ts:150-150 | The sort ascends and keeps the order of equal versions |
| ConfigMigration.FailureNamesStep | packages/config-file/src/ConfigMigration.ts:104-112 | A failure names the step that failed and its phase, and every step before it succeeded |
| ConfigMigration.EndsAtMaximum | packages/config-file/src/ConfigMigration.ts:160-168 | The result carries the maximum of the stored version and the steps' versions |
| ConfigMigration.MigrateTwice | packages/config-file/src/ConfigMigration.ts:155-171 | Migrating a migrated document applies nothing |
| ConfigMigration.MigrateInStages | packages/config-file/src/ConfigMigration.ts:155-171 | Migrating with the steps up to a version and then with all of them is migrating once, failures included |
| ConfigFile.Service.LoadFrom | packages/config-file/src/ConfigFile.ts:519-539 | A read, which may fail for a file that is there, its validation, and the events each outcome publishes |
| ConfigFile.Service.Discover | packages/config-file/src/ConfigFile.ts:541-575 | The sources of the chain in order up to the first failure, each found by the most telling lookup its resolver has, and the candidates its probes report when they miss |
| ConfigFile.Service.LoadOrDefaultWithSource | packages/config-file/src/ConfigFile.ts:584-627 | The merged value and first path, the default, or not found, with the events of each |
| ConfigFile.Service.FindFirst | packages/config-file/src/ConfigFile.ts:643-654 | The first path the chain finds by plain lookup |
| ConfigFile.Service.SaveTo | packages/config-file/src/ConfigFile.ts:734-751 | Where a save ends and what it leaves on disk for every failure |
| ConfigFile.Service.Save | packages/config-file/src/ConfigFile.ts:763-767 | A save announces `Saved` for the file it wrote |
| ConfigFile.Service.Write | packages/config-file/src/ConfigFile.ts:753-761 | A write goes to the caller's path and announces it |
| ConfigFile.Service.Update | packages/config-file/src/ConfigFile.ts:783-797 | The critical section of an update: its result, its files and its events |
| ConfigRules.ReadsExactly | packages/config-file/src/ConfigFile.ts:519-539 | A read gives a value exactly when the file can be read and its text passes the parser, the schema and the validation; each failure names the stage |
| ConfigRules.DiscoversExactly | packages/config-file/src/ConfigFile.ts:541-575 | Discovery gathers one source for each resolver that finds something, in chain order, or fails as the first of their reads that fails |
| ConfigRules.LocatesFirst | packages/config-file/src/ConfigFile.ts:643-654 | The path saved to is the first hit of the plain lookups |
| ConfigRules.HeaderFirst | packages/config-file/src/ConfigFile.ts:459-460 | The header stands first, ends its line, and the document follows whole |
| ConfigRules.SavesExactly | packages/config-file/src/ConfigFile.ts:734-751 | For every failure what a save returns, in the order the stages are tried, and that only a success changes the target file |
| ConfigEvents.LoadIsAccepted | packages/config-file/src/ConfigFile.ts:519-609 | For every chain and every outcome the events of a load are a word of one grammar, which says how the load ended and from which sources |
| ConfigEvents.UpdateAnnounces | packages/config-file/src/ConfigFile.ts:769-797 | An update adds to its load's events one `Updated` when it succeeds, a failed stringify when that is how it failed, and nothing else |
| ConfigUpdates.UpdatesAreSerial | packages/config-file/src/ConfigFile.ts:769-797 | Every interleaving of concurrent updates leaves the files, and gives the outcomes, of the same calls run one after another in lock order; a failed one changes nothing, and an interrupted one contributes nothing or the whole of its update |
| ConfigUpdates.HolderCanStep | packages/config-file/src/ConfigFile.ts:781-797 | The holder of the lock is never stuck |
| ConfigComposition.UpdatesCompose | packages/config-file/src/ConfigFile.ts:769-797 | Under first-match and a lawful codec the first source holds, composed in order, the functions of the calls whose writes landed, those interrupted after their write included, and no other file changes |
| ConfigComposition.LoadAfterUpdates | packages/config-file/src/ConfigFile.ts:598-625 | A load after any interleaving returns that composition when validation accepts it |
| ToolDiscovery.Discovery.EvidenceFor | packages/commands/src/ToolDiscoverySync.ts:181-190 | Remembered evidence, or fresh evidence remembered only when it found something |
| ToolDiscovery.Discovery.Resolve | packages/commands/src/ToolDiscoverySync.ts:192-195 | A refusal, or the tool's policy applied to the remembered or fresh evidence; the rules below say what that answers |
| ToolDiscovery.Discovery.IsAvailable | packages/commands/src/ToolDiscoverySync.ts:197-199 | Whether the tool resolves, with the same effect on the cache |
| ToolDiscovery.CacheIsCurrentExactlyWhenStable | packages/commands/src/ToolDiscoverySync.ts:181-206 | Every call decides on what probing would show at that moment exactly when positive evidence does not change until invalidated |
| ToolDiscovery.AnswersAsUncached | packages/commands/src/ToolDiscoverySync.ts:192-206 | Then every answer, of a resolution or of whether a tool is available, is the one a resolver with no cache gives, for tools that differ only in policy too |
| ToolDiscovery.ProbedAgainUnlessFound | packages/commands/src/ToolDiscoverySync.ts:186-189 | A key is probed again exactly when no probe since its last invalidation found it |
| ToolDiscovery.Decide | packages/commands/src/internal/toolResolution.ts:149-199 | A copy that resolves is one that was found; not found exactly when the source is not satisfied; a mismatch only between two differing copies |
| ToolDiscovery.NotFoundRule | packages/commands/src/internal/toolResolution.ts:150-161 | Not found exactly when the copies the source asks for are not there, naming the locations it admits |
| ToolDiscovery.MismatchRule | packages/commands/src/internal/toolResolution.ts:163-176 | A mismatch exactly for two found copies with differing readable versions and a tool that fails on it, with those two versions |
| ToolDiscovery.OnlyRule | packages/commands/src/internal/toolResolution.ts:178-180 | An explicit location decides, whatever else was found |
| ToolDiscovery.FreeRule | packages/commands/src/internal/toolResolution.ts:181-189 | Otherwise `onMismatch` decides between differing copies, `prefer` (local unless given) between others, and a single copy is the one |
| ToolDiscovery.ResolvedRule | packages/commands/src/internal/toolResolution.ts:191-198 | The copy's own version, the mismatch flag, and a context only for a local copy |
| ToolDiscovery.GlobalProbe | packages/commands/src/ToolDiscoverySync.ts:147-168 | A global copy is there when its spawn starts, however it ends |
| ToolDiscovery.LocalProbe | packages/commands/src/ToolDiscoverySync.ts:165-179 | A local copy is there when its spawn, through the context if that has a launcher, ends with status 0 |
| ToolDiscovery.RemembersRule | packages/commands/src/ToolDiscoverySync.ts:181-206 | After a call a key is remembered exactly when it was and was not invalidated, or it was asked for and either copy was found |
| CatalogText.MatchingBrace | lib/scripts/catalog-sync.ts:266-278 | The loop computes the depth scan |
| CatalogText.BraceCloses | lib/scripts/catalog-sync.ts:258-278 | The scan finds where the depth is first back at zero, and fails only when it never is |
| CatalogText.CatalogEntries | lib/scripts/catalog-sync.ts:280-311 | The entries of the catalog's list with their bodies, nested ones included |
| CatalogRules.EntriesExactly | lib/scripts/catalog-sync.ts:280-311 | Name by name, the entries are the last heads whose braces close within the first list after the catalog's first mention |
| CatalogRules.EntriesInOrder | lib/scripts/catalog-sync.ts:300-310 | They are in the order of their names' first heads |
| CatalogRules.MismatchesExactly | lib/scripts/catalog-sync.ts:451-466 | A mismatch is reported exactly for a planned entry whose first range is not the caret of its planned version, with both ranges |
| CatalogRules.PeerRule | lib/scripts/catalog-sync.ts:444-448 | A version `major.minor.…` is advertised as `^major.minor.0`, what is missing counting as zero |
| CatalogText.RippleMismatches | lib/scripts/catalog-sync.ts:451-466 | The planned entries whose first range is not the planned one |
| CatalogText.ApplyRipples | lib/scripts/catalog-sync.ts:476-492 | The loop rewrites the first range and peer of each mismatched entry it finds |
| CatalogRipples.RipplesCureExactly | lib/scripts/catalog-sync.ts:451-492 | The reader finds no mismatch after the edits exactly when no two planned entries share their first range for different versions and every stale range belongs to an entry spelt the writer's way; only values change, in the first range and peer of a body, a nested entry's among them |
| CatalogRipples.NestedStaysStale | lib/scripts/catalog-sync.ts:476-492 | A balanced literal with distinct names and a range in every entry for which a mismatch is left |
| CatalogRipples.EditsAreLocal | lib/scripts/catalog-sync.ts:476-492 | Every token but the first ranges and peers the writer's search finds is unchanged, and so is every brace |
| CatalogLocality.EditsKeepToOwnExactly | lib/scripts/catalog-sync.ts:468-492 | Every edit keeps to the own two fields of the entry it is made for if and only if, in each mismatched entry the writer finds, the first range and the first peer stand directly in it |
| CatalogLocality.OwnRangesChangeExactly | lib/scripts/catalog-sync.ts:476-492 | The own range of each such entry is rewritten if and only if in each of them the first range stands directly in it |
| CatalogLocality.RangesThatChange | lib/scripts/catalog-sync.ts:484-488 | The ranges whose value changes are the first ones in the bodies of the mismatched entries the writer finds |
| CatalogLocality.OwnFieldsRewritten | lib/scripts/catalog-sync.ts:468-492 | Where those first fields are own, each such entry ends with its planned range and peer in its own fields, and nothing else changes |
| CatalogLocality.OwnRangesPlanned | lib/scripts/catalog-sync.ts:451-492 | Where every planned entry's first range stands directly in it, each ends at its planned version if and only if every mismatched entry is spelt the writer's way |
| CatalogLocality.NestedIsMiswritten | lib/scripts/catalog-sync.ts:468-492 | A balanced literal with distinct names and a range in every entry, of which one is planned: none is mismatched afterwards, but it is the nested entry's range that was rewritten, and its own was not |

## Left out

- RunOnceDriver.RunSync: drives at most a given number of requests, because a poll loop need not end; what it returns after an end is unconditional.
- ExplorerReduction.ReductionMissesNothing: needs local requests that commute up to a relation the moves respect. Nonces may be renumbered by it; the clock may not be forgotten, because ages are compared with limits, and in the protocol every request advances it, so whether some protocol violation depends on that is not decided. Schedules with a crash (a process may crash before a local request that another order would have it make first), and those cut off by the sleep limit or the step cap, are not compared.
- ConfigMigration.Parse: versions are real numbers, so NaN and infinities are not modelled.
- UrlScan.UrlsInText: text is a sequence of characters, not of UTF-16 code units; neither class contains a surrogate. The redaction of one URL is an arbitrary function.
- FmtRanges.Ranges: integers are those a double represents with its successor; the printing of larger ones is not modelled.
- Redaction.Prepare: lengths are counted in characters, not in UTF-16 code units, so secrets with surrogates may be sorted otherwise.
- Redaction.ScrubArgs: which names are secret is an arbitrary predicate; case folding is not modelled.
- ConfigMerge.LayeredMerge: records are finite trees; cycles, shared subobjects and key order are not modelled.
- CatalogText.CatalogEntries: the source is a sequence of tokens, so how a head, a range or a peer is spelt inside its token is not modelled, except whether a head has the one spelling the writer looks for.
- ConfigFile.Service.Update: the write is atomic, so an interruption inside it counts as one before it or after it.
- ConfigFile.Service.LoadFrom: a file that cannot be read stays so until it is written; a read that fails once and then succeeds is not modelled.
- Run-once: one host (probes of other hosts and clock skew are not modelled), one set of limits for all callers, validated settings, nonces that keep the grammar; the asynchronous driver and its interruption.
- Run-once: a text that is on its way lands at its writer's next step, in one step with the request made then.
- Run-once: recycled pids appear only as a probe that calls a dead process alive.
- The credential pass over prose and the rebuilding of HTTP errors, digests and signatures.
- Terminal, theme, prompt and document rendering, and real child processes.
- Effect layers, context services and spans.
- The launcher, log routing, exit-code tables and the changeset texts: finite case splits with no state.
