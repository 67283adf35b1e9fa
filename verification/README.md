# IPMS Agent: a verified model of its durable execution and codecs

The Agent changes Windows infrastructure (group policy, the Host Guardian
Service, Hyper-V checkpoints) on behalf of a portal, and must not repeat a
change after a crash or a lost reply. These Dafny modules model the parts that
carry this promise, and the formats they are stored and authorised in.

| modules | what they model |
|---|---|
| `Utf8`, `ManagementJson*` | the bounded contract JSON: canonical text, grammar, the parser and serializer classes, the laws between them, and the documents that are accepted, told by how they are written |
| `GpoRecord`, `GpoPostconditions`, `GpoProtocolSteps`, `GpoManaged`, `GpoPilot`, `GpoExecutionLaws`, `GpoStateLaws`, `GpoStore`, `GpoJournalBytes`, `GpoProtocol`, `GpoReached` | one GPO job: its record, the executions against an arbitrary provider, what their order of events and their checks mean, the protected files and their bytes, and every run over crashes and restarts |
| `AtomicWrites` | a save as a list of atomic file changes and the disks between them, shared by both stores |
| `HgsContract`, `HgsJobJson`, `HgsObservationJson`, `HgsManagement`, `HgsExecutionLaws`, `HgsStore`, `HgsJournalBytes`, `HgsProtocol`, `HgsClaims` | the same for Host Guardian Service jobs, with the reconciliation fence and its releases |
| `HypervJournal`, `HypervJournalLaws`, `HypervGuards`, `HypervGuardLaws` | the Hyper-V journal as a codec and transition system, and the command guard with its checkpoint forests |
| `GpoLinks`, `GplinkCensus` | placing and removing links in numbered lists, gPLink text, and the forest-wide census |
| `LittleEndian`, `Utf16`, `RegistryPol`, `RegistryLayout`, `GpoArtifact` | Registry.pol between the Agent's renderer and the importer's parser, and the IPMSGPO1 artifact with both decoders |
| `IdentityWorker` | the generation-ticketed validation worker as interleaved steps |
| `NormalizeControls`, `NormalizeLaws` | the folding of baseline records into controls |

How the model reads:

- A byte string is a Dafny `string`, one `char` for each byte. A character above
  255 stands for no byte; the UTF-8 tests reject it, and the little-endian
  readers take its low byte. JSON objects are `map<string, Value>`.
- An exception is an out-value (`None`, `Raised`, `Escaped`) instead of a
  precondition. Providers, clocks, authorities and digests are arbitrary
  answers or function parameters, so results hold against all of them.
- Each protected file is written or moved atomically. A save succeeds or ends
  the process. At most one process of a component works at a time; a worker
  that was lost is gone before its parent fences the job. The HGS provider
  returns observations it validated. The GPMC link collection behaves as a
  numbered list, and one GUID names one GPO.
- The execution methods record everything they do and hear in order: saves,
  uses of the approval, provider calls, and every answer to a question for
  authority, expiry or the claim, every reading and everything that throws. They
  are proved to keep to a protocol on these events. `GpoProtocol` and `HgsProtocol`
  prove what that protocol guarantees over all runs from an empty disk, with
  crashes between any two writes; their `TraceIsRun` lemmas tie the two
  together, and `GpoReached.DirectoryIsReached` and `HgsProtocol.HostIsReached`
  show that such runs exist.
- Where a function does not do what one would expect of it alone, the exact
  condition is proved. A list with an empty last item and a negative number do
  not survive Registry.pol (`RegistryPol.FileRoundTrip`). These are limits of
  the format functions and not faults of the Agent: values are validated before
  they are rendered (`RegistryPol.ValidatedIsFaithful`), and the editable
  registry settings compiled today are strings and 32-bit numbers with a
  minimum of zero. A full link list is written before it is refused
  (`GpoLinks.PlaceLink`), which the check before approval rules out
  (`GpoLinks.ApprovedIsPlaced`). A reader of the validation worker that is held
  up before its last load takes the time of a later ticket's success for its own
  (`IdentityWorker.LaterSuccessIsRead`), and only then
  (`IdentityWorker.ReadMeansValidated`).

## Model

| member | source | states |
|---|---|---|
| Utf8.Width | agent/src/management_json.cpp:22-41 | returns the width of the scalar at an offset exactly when the bytes there are a shortest-form scalar (RFC 3629 section 4), and fails past the end |
| Utf8.ReadIsEncode | agent/src/management_json.cpp:22-41 | whatever is accepted is a scalar value, not a surrogate, in its own shortest encoding |
| Utf8.EncodeIsRead | agent/src/management_json.cpp:94-109 | every scalar value is read back from its encoding, whatever bytes follow |
| Utf8.WellFormedIsEncoded | agent/src/management_json.cpp:22-41 | the accepted byte strings are the encodings of scalar sequences |
| Utf8.EncodedAllIsWellFormed | agent/src/management_json.cpp:94-109 | the encoding of any scalar sequence is accepted |
| ManagementJsonLaws.ParseAfterSerialize | agent/src/management_json.cpp:43-212 | for every value and limits, what was serialized parses under the same limits to the same value |
| ManagementJsonLaws.SerializeIsInjective | agent/src/management_json.cpp:214-305 | two values with the same text are the same value |
| ManagementJsonLaws.SerializeAfterParse | agent/src/management_json.cpp:167-298 | a parsed value can be serialized under the same limits, is no longer than the document it came from, and parses back to itself |
| ManagementJsonLaws.ReadValueIsWritten | agent/src/management_json.cpp:167-212 | reading a value fits the depth, string and node limits, counts its nodes exactly, and its canonical text is no longer than what was consumed |
| ManagementJsonLaws.ValueIsRead | agent/src/management_json.cpp:167-212 | the canonical text of a value is read back before any delimiter, at any depth and node count it fits in |
| ManagementJsonSpellings.SpelledIsParsed | agent/src/management_json.cpp:50-212 | every document that spells a value within the limits parses to it: scalars raw, by a short escape, by four hexadecimal digits in either case or by a surrogate pair, blanks around any token, members in any order |
| ManagementJsonSpellings.ParsedIsSpelled | agent/src/management_json.cpp:50-212 | every document that is accepted is such a spelling of the value it parses to |
| ManagementJsonSpellings.LoneSurrogateIsRefused | agent/src/management_json.cpp:124-141 | a string with a high surrogate that no low one follows, or a low one alone, is refused |
| ManagementJsonText.EscapesAreFixed | agent/src/management_json.cpp:232-260 | the canonical escape of each byte: a short one where there is one, else four lower-case digits |
| ManagementJsonText.NestedFits | agent/src/management_json.cpp:167-208 | the depth limit is exactly the number of containers that may lie in each other |
| ManagementJsonText.ItemsCounted | agent/src/management_json.cpp:167-208 | an array of scalars counts one node for itself and one for each item |
| ManagementJsonText.MembersCounted | agent/src/management_json.cpp:167-208 | an object of scalars counts one node for itself and two for each member, its key and its value |
| ManagementJson.Parser.Text | agent/src/management_json.cpp:110-149 | the string loop over raw bytes, escapes and surrogate pairs reads exactly the string grammar and advances by what it consumed |
| ManagementJson.Parser.Integer | agent/src/management_json.cpp:151-166 | the integer loop accepts exactly int64 without leading zeros or fractions; minus zero is accepted and read as zero |
| ManagementJson.Parser.Value | agent/src/management_json.cpp:167-208 | the recursive descent reads exactly the value grammar under the depth and node limits, and leaves the rest of the source |
| ManagementJson.Parse | agent/src/management_json.cpp:50-63 | a whole document is accepted exactly when the grammar and the limits accept it, with that value |
| ManagementJson.Serializer.Text | agent/src/management_json.cpp:232-262 | appends the escaped string or fails, without ever passing the byte limit |
| ManagementJson.Serializer.Value | agent/src/management_json.cpp:263-300 | appends the canonical text exactly when it fits; the subtraction of used bytes from the limit never underflows |
| ManagementJson.Serialize | agent/src/management_json.cpp:217-225 | succeeds exactly for the values that fit the limits, with their canonical text |
| HypervJournal.DecodeAfterEncode | agent/src/hyperv_management_journal.cpp:154-196 | a journal encodes exactly when it is valid, and then decodes to itself, embedded result included |
| HypervJournal.EncodeIsInjective | agent/src/hyperv_management_journal.cpp:163-166 | different valid journals have different bytes |
| HypervJournal.EncodeAfterDecode | agent/src/hyperv_management_journal.cpp:168-196 | decoded bytes hold exactly the document of the decoded journal, which encodes again |
| HypervJournal.StepIsSafe | agent/src/hyperv_management_journal.cpp:198-269 | one transition, write, call or restart keeps memory a continuation of the disk and never moves a settled record |
| HypervJournal.RunIsSafe | agent/src/hyperv_management_journal.cpp:198-269 | over every run with crashes the provider is called at most once, phases only advance, and a terminal or reconciliation record never changes |
| HypervJournal.PreparedStarts | agent/src/hyperv_management_journal.cpp:198-201 | a freshly prepared and saved journal starts such a run |
| HypervJournal.DeliveryNeverRepeats | agent/src/hyperv_management_journal.cpp:203-213 | over every run from a prepared record, a delivery is answered with invoke only while no call was made, one with another binding is rejected, and a reported terminal result never changes |
| HypervJournalLaws.StoredIsRead | agent/src/hyperv_management_journal.cpp:59-77 | the bytes of a valid record read as the object with exactly the nine named fields, its phase name and its result |
| HypervJournalLaws.CompletesExactly | agent/src/hyperv_management_journal.cpp:233-254 | when a record can be completed: with any object within the limits that still fits into the document from a call or an observation, with exactly a failed preflight from a prepared record, with exactly its own result from a terminal one, and never while it waits for reconciliation |
| HypervJournalLaws.CompletedHoldsResult | agent/src/hyperv_management_journal.cpp:233-254 | the completed record is terminal, keeps its identity and job, holds exactly the given result, and can be completed again only with it |
| HypervJournalLaws.CompletedIsLoaded | agent/src/hyperv_management_journal.cpp:233-260 | once a completion is saved, every load in every later run returns the given result, and a delivery reports it |
| HypervJournalLaws.ObservesExactly | agent/src/hyperv_management_journal.cpp:223-231 | an observation begins exactly from an invocation with a local job reference that fits, and holds exactly that reference |
| HypervJournalLaws.ObservationIsLoaded | agent/src/hyperv_management_journal.cpp:223-260 | once an observation is saved, a restart goes on with exactly that record, and every later record is about its job |
| HypervJournalLaws.RecoversExactly | agent/src/hyperv_management_journal.cpp:256-260 | recovery returns every valid record as it was, but for an invocation, which comes to wait for reconciliation |
| HypervJournalLaws.ReconcilesExactly | agent/src/hyperv_management_journal.cpp:262-269 | only a call, an observation or a record that waits already comes to wait for reconciliation, and nothing but its phase changes |
| HypervJournalLaws.CallIsReached | agent/src/hyperv_management_journal.cpp:215-221 | a prepared record that can be stored as an invocation is called for once it was stored |
| HypervJournalLaws.InterruptedCallIsFenced | agent/src/hyperv_management_journal.cpp:256-269 | a restart on a saved invocation leaves a record that waits for reconciliation, and no later run calls the provider again |
| HypervJournalLaws.DeliveryIsDecided | agent/src/hyperv_management_journal.cpp:203-213 | each answer to a delivery is given exactly for the phases it belongs to, and rejection exactly for an invalid record or binding or another identity |
| HypervGuards.ForestIffRooted | agent/include/ipms/agent/hyperv_management_guards.hpp:56-64 | the parent map is a forest exactly when every walk to the root ends |
| HypervGuards.CollectParents | agent/include/ipms/agent/hyperv_management_guards.hpp:46-55 | the first row that cannot be read or repeats an id decides; otherwise the map holds every row and the selected one is found if it is there |
| HypervGuards.RowsAreSound | agent/include/ipms/agent/hyperv_management_guards.hpp:48-54 | no row is refused exactly when all rows can be read and no id repeats |
| HypervGuards.ParentMapGivesParents | agent/include/ipms/agent/hyperv_management_guards.hpp:48-54 | the parent map gives each checkpoint of a duplicate-free list its own parent |
| HypervGuards.Walk | agent/include/ipms/agent/hyperv_management_guards.hpp:57-63 | the cycle walk terminates and succeeds exactly when the checkpoint has a root |
| HypervGuards.CheckForest | agent/include/ipms/agent/hyperv_management_guards.hpp:56-64 | accepts exactly the forests |
| HypervGuards.Affected | agent/include/ipms/agent/hyperv_management_guards.hpp:79-84 | the growing loop terminates with exactly the selected checkpoint and its descendants |
| HypervGuards.CheckAcknowledgement | agent/include/ipms/agent/hyperv_management_guards.hpp:72-78 | accepts between 1 and 256 readable distinct canonical ids, and returns them as a set |
| HypervGuards.ValidateCheckpointCommand | agent/include/ipms/agent/hyperv_management_guards.hpp:44-86 | apply and delete are answered by what the checkpoint tree is: unreadable rows, duplicates, missing selection, forest, parameter counts, confirmation, subtree |
| HypervGuards.ValidateManagementCommand | agent/include/ipms/agent/hyperv_management_guards.hpp:18-87 | the whole guard returns the first code that applies, including the one for a field that is missing or of the wrong kind where the source reaches it |
| HypervGuards.AcceptedDelete | agent/include/ipms/agent/hyperv_management_guards.hpp:71-86 | an accepted delete acknowledges exactly the subtree of its checkpoint in a forest of readable, distinct rows, on a running or stopped machine |
| HypervGuardLaws.AcceptedIsCurrent | agent/include/ipms/agent/hyperv_management_guards.hpp:22-34 | an accepted command has the VM id, name and revision of the snapshot, whose settings, and checkpoints where they matter, were collected, and its capability is true |
| HypervGuardLaws.AcceptedCreate | agent/include/ipms/agent/hyperv_management_guards.hpp:38-42 | a create is accepted exactly with the one parameter "configured", checkpoint policy 5 and a running or stopped machine |
| HypervGuardLaws.AcceptedUpdate | agent/include/ipms/agent/hyperv_management_guards.hpp:35-37 | a settings change is accepted exactly when its head is and its own validation finds nothing |
| HypervGuardLaws.AcceptedApply | agent/include/ipms/agent/hyperv_management_guards.hpp:43-70 | an apply is accepted exactly with three parameters of which both names confirm it, on a checkpoint of a forest that allows it, and a stopped machine |
| HypervGuardLaws.DeleteIsAccepted | agent/include/ipms/agent/hyperv_management_guards.hpp:43-86 | a delete is accepted exactly with two parameters that acknowledge the whole subtree of a checkpoint that allows it, on a running or stopped machine |
| HypervGuardLaws.HeadRefusals | agent/include/ipms/agent/hyperv_management_guards.hpp:22-33 | each demand of every command gets its own code when it is the first that is not met |
| HypervGuardLaws.MissingField | agent/include/ipms/agent/hyperv_management_guards.hpp:23-34 | a field that is missing where the checks reach it makes the command invalid |
| HypervGuardLaws.CreateRefusals | agent/include/ipms/agent/hyperv_management_guards.hpp:38-42 | a wrong parameter, an unsupported policy and the machine's state get their codes |
| HypervGuardLaws.SelectionRefusals | agent/include/ipms/agent/hyperv_management_guards.hpp:44-64 | a repeated id, a checkpoint that is not there and rows that are no forest get their codes |
| HypervGuardLaws.ApplyRefusals | agent/include/ipms/agent/hyperv_management_guards.hpp:65-70 | a wrong count or name, a checkpoint that cannot be applied and a machine that is not stopped get their codes |
| HypervGuardLaws.DeleteRefusals | agent/include/ipms/agent/hyperv_management_guards.hpp:71-86 | a wrong count, a checkpoint that cannot be deleted, a malformed or different acknowledgement and the machine's state get their codes |
| HgsManagement.Recover | agent/src/hgs_management.cpp:145-165 | recovery never changes the host; from each phase it asks exactly what the source asks and records exactly the outcome that follows, with a reboot on the same boot before its deadline still waiting |
| HgsManagement.Attempt | agent/src/hgs_management.cpp:170-185 | the guarded part of an execution: where it ends, the outcome is the one that its last question, look or change explains; where it throws, the record is not settled |
| HgsManagement.Resolve | agent/src/hgs_management.cpp:153-165 | the exact outcome of one look: finished for a met postcondition, still waiting for the same boot before the deadline, else failed or reconciliation |
| HgsManagement.Change | agent/src/hgs_management.cpp:183-193 | from an intent that was claimed and affirmed, the host is changed or found to need nothing, with the outcome that its last event explains |
| HgsManagement.Execute | agent/src/hgs_management.cpp:166-198 | an execution keeps to the protocol and its outcome is exactly the one its last event explains; a refused claim, a lost authority or an expired job means that nothing was changed; a success changed the host exactly when there was something to do |
| HgsManagement.Finish | agent/src/hgs_management.cpp:45-48 | settling writes exactly the given outcome, once, as a terminal record |
| HgsManagement.OneExecution | agent/src/hgs_management.cpp:112-122 | over any allowed sequence phases advance, the host is changed at most once, only for a mutating job and from an own intent, and a job that changed it never ends failed |
| HgsManagement.AllowedPrefix | agent/src/hgs_management.cpp:166-198 | a process that stops anywhere has done only what is allowed |
| HgsManagement.NothingAfterNegative | agent/src/hgs_management.cpp:166-198 | after a refusal, an expiry or anything that threw only the outcome is saved |
| HgsExecutionLaws.ChangeNeedsClaim | agent/src/hgs_management.cpp:170-185 | before the host is changed exactly one claim was asked, after the claiming record was saved, and answered yes; authority and expiry were affirmed between it and the save of the intent, and again before the change |
| HgsExecutionLaws.ReadyMeans | agent/src/hgs_management.cpp:99-105 | every operation but a look needs a supported server whose service, if it has one, is the configured one |
| HgsExecutionLaws.ReadyExactly | agent/src/hgs_management.cpp:99-111 | what each operation asks of a supported server, field by field |
| HgsExecutionLaws.MetExactly | agent/src/hgs_management.cpp:112-122 | what each operation must show when it is done, field by field |
| HgsExecutionLaws.DoneExactly | agent/src/hgs_management.cpp:183-185 | only a reboot that is not needed and a service that is already as configured are left alone |
| HgsStore.Store.SaveJournal | agent/src/windows/windows_hgs_management.cpp:146-158 | the exact writes in order (receipt once, fence, current), the refusals, and the disk after every single write |
| HgsStore.Store.LoadJournal | agent/src/windows/windows_hgs_management.cpp:139-145 | returns the receipt when there is one that belongs to the job, restoring its fence first |
| HgsStore.FenceFollowsRecord | agent/src/windows/windows_hgs_management.cpp:146-183 | a saved reconciliation closes the fence with its record; the release with its job and plan opens it, and no other release does |
| HgsStore.Store.ReleaseFence | agent/src/windows/windows_hgs_management.cpp:172-183 | a release is stored only when it names the job and plan of the closed fence, a stale one changes nothing, and it fails exactly when it contradicts a stored release or the fence cannot be read |
| HgsJobJson.JobReadsBack | agent/src/hgs_management.cpp:49-75 | a job is read back from its document exactly when it meets every check of the contract on its fields and its configuration |
| HgsJobJson.JobIsWritten | agent/src/hgs_management.cpp:49-75 | a document that is accepted is the one of the job read from it |
| HgsObservationJson.LookReadsBack | agent/src/hgs_management.cpp:77-87 | an observation is read back from its document exactly when it is valid |
| HgsObservationJson.LookIsWritten | agent/src/hgs_management.cpp:77-87 | a document that is accepted is the one of the observation read from it |
| HgsJournalBytes.ReadAfterWrite | agent/src/hgs_management.cpp:123-133 | exactly the records that meet the contract and fit the limits are saved, and the bytes of a saved record read back as that record |
| HgsJournalBytes.WriteAfterRead | agent/src/hgs_management.cpp:127-133 | accepted bytes hold a record that meets the contract, whose own bytes are the canonical text of what was read and no longer |
| HgsJournalBytes.BytesNameTheRecord | agent/src/windows/windows_hgs_management.cpp:147-150 | records with the same bytes are the same record, so comparing receipts by bytes compares records |
| HgsProtocol.StepHolds | agent/src/windows/windows_transport.cpp:1638-1710 | the invariant of disk, fence and worker survives every step, including a crash between any two writes |
| HgsProtocol.ChangedAtMostOnce | agent/src/hgs_management.cpp:166-198 | in every run a job changes the host at most once, one that did is never recorded as failed, and no save stops at a refusal once it began |
| HgsClaims.ChangedOnlyWhenClaimed | agent/src/hgs_management.cpp:170-185 | in every run a job is claimed at most once, and the host is changed only for a job whose claim was answered yes |
| HgsProtocol.EverySaveIsCarriedOut | agent/src/windows/windows_hgs_management.cpp:146-158 | in every run each save a worker may make is not refused, and there are steps that carry out exactly its writes |
| HgsProtocol.ChangedOnlyWhenReady | agent/src/hgs_management.cpp:170-185 | in every run the host is changed only under a durable intent whose observation met the prerequisites, with no receipt yet |
| HgsProtocol.SucceededIsJustified | agent/src/hgs_management.cpp:112-122 | in every run a success carries an observation that meets the postcondition, except for a reboot with nothing pending |
| HgsProtocol.PhaseAdvances | agent/src/hgs_management.cpp:145-198 | in every run the phase of the job on disk never goes back |
| HgsProtocol.HostIsReached | agent/src/hgs_management.cpp:166-185 | for every job that is more than a look, whose prerequisites are seen and that has something to change, there is a run that takes it, claims it once and changes the host once |
| HgsProtocol.ReconciliationIsFenced | agent/src/windows/windows_hgs_management.cpp:139-158 | whenever a worker is at work, every reconciliation that was not released is the closed fence |
| HgsProtocol.FenceOpensByRelease | agent/src/hgs_management.cpp:134-140 | in every run a closed fence opens only through a release with its job id and plan digest |
| HgsProtocol.NothingChangesWhileFenced | agent/src/windows/windows_transport.cpp:1638-1710 | in every run nothing changes the host while a fence is closed |
| HgsProtocol.TakenWhileFenced | agent/src/hgs_management.cpp:141-144 | while a fence is closed only a look at the same tenant, enrollment and device is taken |
| HgsProtocol.ReceiptIsFinal | agent/src/windows/windows_hgs_management.cpp:134-158 | however a run goes on after a receipt was written, it never changes and every load of its job returns it |
| HgsProtocol.TraceIsRun | agent/src/hgs_management.cpp:145-198 | what the methods are shown to do is a run of the machine with exactly its claims and changes, so the results over runs apply to them |
| GpoRecord.ParseAfterDocument | agent/src/gpo_management.cpp:198-247 | field by field, a record reads back from its document, as itself, exactly when it meets the phase, guid, deadline, approval and result invariants |
| GpoRecord.DocumentAfterParse | agent/src/gpo_management.cpp:205-247 | field by field, an accepted document is the document of the record it reads as |
| GpoJournalBytes.ReadAfterWrite | agent/src/windows/windows_gpo_journal.cpp:159-170 | the canonical JSON bytes of a saved record are read back as that record |
| GpoJournalBytes.WriteAfterRead | agent/src/windows/windows_gpo_journal.cpp:142-157 | what is read from disk is a valid record, whose own bytes are the canonical form of what was read and no longer |
| GpoJournalBytes.BytesNameTheRecord | agent/src/windows/windows_gpo_journal.cpp:162-166 | records saved as the same bytes are the same record, so the comparison of receipts by bytes compares records |
| GpoPostconditions.PostconditionsKeepForeignLinks | agent/src/gpo_managed.cpp:76-139 | the checks after a write imply that every target keeps the other GPOs' links, direct and inherited, with flags and relative order |
| GpoPostconditions.ForeignLinkSurvives | agent/src/gpo_managed.cpp:76-79 | where the others are kept, every link of another GPO is still there, the same but for its position, and none of them is new |
| GpoProtocolSteps.MutationNeedsIntent | agent/src/gpo_managed.cpp:383-389 | in any allowed sequence a directory call comes after consuming the approval and then saving the creating intent |
| GpoProtocolSteps.SavedAreValid | agent/src/gpo_management.cpp:198-247 | every record that is saved meets the journal invariants and reads back as itself |
| GpoExecutionLaws.ConsumptionNeedsAuthority | agent/src/gpo_managed.cpp:369-384 | the approval is used only after authority was affirmed before anything was read and again after the last read; a managed job read the approved state exactly twice by then |
| GpoExecutionLaws.CallNeedsAuthority | agent/src/gpo_managed.cpp:385-417 | every directory call stands after a save of the intent and an affirmation of authority after that save; for a link after an import it is the second such save |
| GpoExecutionLaws.InspectionNeedsAuthority | agent/src/gpo_managed.cpp:353-358 | an inspection is recorded only when authority was affirmed before and after it read |
| GpoStateLaws.StateIsAccepted | agent/src/gpo_managed.cpp:274-306 | a state is accepted exactly when it is that of the job's GPO on the job's targets, with room for every link and a GPO the operation may start from |
| GpoStateLaws.PolicyIsAccepted | agent/src/gpo_managed.cpp:307-327 | an existing GPO is accepted exactly when its marker, filter, versions, sections and links are those the operation starts from; counting names is enough to see that every target is linked |
| GpoStateLaws.StateRefusals | agent/src/gpo_managed.cpp:274-305 | each demand on the state gets its own code |
| GpoStateLaws.PolicyRefusals | agent/src/gpo_managed.cpp:307-327 | each demand on the GPO gets its own code |
| GpoStateLaws.PreparedIsAccepted | agent/src/gpo_managed.cpp:395-408 | between import and link the state is accepted exactly when nothing but this GPO changed, and only as the import or the adoption changes it |
| GpoStateLaws.ImportShows | agent/src/gpo_managed.cpp:417-432 | what the last snapshot of an import must show, exactly |
| GpoStateLaws.LinkShows | agent/src/gpo_managed.cpp:80-139 | what the last snapshot of a link must show, exactly |
| GpoStateLaws.ActivateShows | agent/src/gpo_managed.cpp:80-139 | what the last snapshot of an activation must show, exactly |
| GpoStateLaws.DeactivateShows | agent/src/gpo_managed.cpp:80-139 | what the last snapshot of a deactivation must show, exactly |
| GpoStateLaws.DeleteShows | agent/src/gpo_managed.cpp:85-100 | what the last snapshot of a deletion must show, exactly |
| GpoStateLaws.CallsBelong | agent/src/gpo_managed.cpp:386-417 | which jobs make each of the directory calls |
| GpoStateLaws.CallsInOrder | agent/src/gpo_managed.cpp:386-417 | a GPO is created before it is written to, linked last, and no call is made twice |
| GpoManaged.SuccessIsValid | agent/src/gpo_managed.cpp:140-144 | the result of a finished operation is always one the contract accepts |
| GpoManaged.FinishedRecordIsValid | agent/src/gpo_managed.cpp:140-144 | the record of a finished operation can be read back |
| GpoManaged.CaughtRecordIsValid | agent/src/gpo_managed.cpp:433-437 | the record of a caught failure can be read back, whatever the exception said |
| GpoManaged.Examine | agent/src/gpo_managed.cpp:369-383 | what comes before the approval is consumed: two questions for authority around two reads of the approved state, in exactly this order with the checks and the backup between them; otherwise the code says what stopped it |
| GpoManaged.Preflight | agent/src/gpo_managed.cpp:369-385 | nothing is written before the intent, and a prepared-only import ends here with the approved state as its result |
| GpoManaged.NameGpo | agent/src/gpo_managed.cpp:387-389 | the identity of the GPO is usable and durable before anything is written to it |
| GpoManaged.ApplyOperation | agent/src/gpo_managed.cpp:390-417 | each operation makes exactly its calls in order, or a prefix of them where it throws |
| GpoManaged.LinkPrepared | agent/src/gpo_managed.cpp:390-414 | the link is written only after the state was read again, found prepared, and the intent saved again |
| GpoManaged.WriteAndVerify | agent/src/gpo_managed.cpp:386-432 | a success after the intent is witnessed by the last snapshot and its postconditions |
| GpoManaged.ExecuteManaged | agent/src/gpo_managed.cpp:364-438 | every event is allowed and the outcome follows from what came before: success is witnessed by the snapshots and names the backup that was made; a first refusal of authority is the only event before a failure with its code; failed means no directory call; the calls are a prefix of the operation's sequence, and all of it on success |
| GpoManaged.SuccessKeepsForeignLinks | agent/src/gpo_managed.cpp:364-432 | a success of any of the six operations: both earlier snapshots are the approved state, and the last keeps every link this GPO does not own |
| GpoManaged.InspectManaged | agent/src/gpo_managed.cpp:353-363 | an inspection saves one terminal record: inspected after exactly authority, one accepted read and authority, or failed with the code of what stopped it; it never uses an approval or calls the directory |
| GpoPilot.RecordClaim | agent/src/gpo_management.cpp:281-307 | the reply is recorded once: a grant with its deadline and matching approval, a confirmed cancellation as failed, anything else as reconciliation |
| GpoPilot.ExecutePilot | agent/src/gpo_management.cpp:308-340 | every event is allowed and the outcome follows from what came before; the calls made are a prefix of create, disable, identify, import, disable, and all of it when staged; failed means none was made; a refused authority is reported as expired |
| GpoPilot.FenceLostWorker | agent/src/windows/windows_gpo_management.cpp:215-226 | a lost worker: a completed record is reported, any other is fenced as needing reconciliation with its known guid |
| GpoStore.Store.SaveJournal | agent/src/windows/windows_gpo_journal.cpp:159-170 | a record is saved only if it reads back; the receipt is written once and before the current record; the disk after every write |
| GpoStore.Store.LoadJournal | agent/src/windows/windows_gpo_journal.cpp:142-157 | returns the immutable receipt when there is one, and refuses one of another assignment |
| GpoStore.ApprovalNamesOneRecord | agent/src/windows/windows_gpo_journal.cpp:184-192 | an approval file approves one assignment and enrollment, and the portal's approves one exact claim |
| GpoStore.Store.SaveApproval | agent/src/windows/windows_gpo_journal.cpp:193-205 | an approval is written only once and never after it was used |
| GpoStore.Store.Consume | agent/src/windows/windows_gpo_journal.cpp:206-212 | moves the approval to its used name, at most once for a file |
| GpoStore.ConsumedForGood | agent/src/windows/windows_gpo_journal.cpp:133-141 | after an approval was used, no record of its file is approved again after any sequence of approvals, uses, journal writes and releases |
| GpoProtocol.StepHolds | agent/src/windows/windows_transport.cpp:1473-1630 | the invariant of disk, approvals, intents and worker survives every step, including a crash between any two changes |
| GpoProtocol.CalledByOneAttempt | agent/src/gpo_managed.cpp:364-438 | in every run all directory calls for a job are by one attempt for one assignment, which used up the approval |
| GpoProtocol.CallFollowsIntent | agent/src/gpo_management.cpp:319-328 | in every run, when a call is made the approval is already used and the writing record already on disk, both by this attempt, and no receipt exists |
| GpoProtocol.FailedMeansUntouched | agent/src/gpo_managed.cpp:433-437 | in every run a receipt that says failed or inspected means that no directory call was ever made for the job |
| GpoProtocol.CalledIsSettled | agent/src/gpo_managed.cpp:381-437 | in every run a job that reached the directory has a receipt of success or reconciliation, or its writing record is still on disk |
| GpoProtocol.LaterAttemptReconciles | agent/src/windows/windows_gpo_management.cpp:215-226 | in every run, after the attempt that wrote was lost, a later one can only record that reconciliation is required |
| GpoProtocol.ApprovalIsUsedOnce | agent/src/windows/windows_gpo_journal.cpp:133-141 | however a run goes on after an approval was used, it stays used, by the same attempt |
| GpoProtocol.ReceiptIsFinal | agent/src/windows/windows_gpo_journal.cpp:142-170 | however a run goes on after a receipt was written, it never changes and every load of its job that completes returns it |
| GpoReached.DirectoryIsReached | agent/src/gpo_managed.cpp:364-438 | for every job of any schema that can be approved, whatever fitting things are found, there is a run that claims, approves, loads and carries it out, with exactly the calls of its operation in order and every question, reading and save between them |
| GpoProtocol.TraceIsRun | agent/src/gpo_managed.cpp:364-438 | what the methods are shown to do is a run of the machine; a trace is cut short only where a save would replace the receipt of its job |
| GpoProtocol.LoadedTraceIsRun | agent/src/windows/windows_gpo_management.cpp:295-310 | everything a worker is shown to do with a record it loaded is a run, with exactly its directory calls, without further condition on the job |
| GpoLinks.PlaceLink | agent/src/windows/windows_gpo_managed.cpp:555-574 | one target: refused untouched, or the original without the own link plus the own link at exactly that position with the asked flag; the checks after the write never fire; a full list without an own link fails after it was written |
| GpoLinks.UpdateLinks | agent/src/windows/windows_gpo_managed.cpp:551-575 | all targets in the loop: those before the first refusal show the one link asked for, at its position and with its flags, and every other link as it was; the first refused one and the rest are untouched, and so is any target whose links are not the approved ones |
| GpoLinks.RefusalIsDecided | agent/src/windows/windows_gpo_managed.cpp:555-563 | a target is accepted exactly when its links are the approved ones, at most one of them is of this GPO, and that one is not enforced; each refusal has its code |
| GpoLinks.RemoveLink | agent/src/windows/windows_gpo_managed.cpp:600-607 | one target: the original without the own link, numbered without gaps; the check after the deletion never fires |
| GpoLinks.RemoveLinks | agent/src/windows/windows_gpo_managed.cpp:595-607 | all targets in the loop |
| GpoLinks.PlacementMeetsPostconditions | agent/src/gpo_managed.cpp:102-129 | a placement keeps the others' links and shows the own link where the final check looks for it |
| GpoLinks.ApprovedIsPlaced | agent/src/gpo_managed.cpp:286-292 | an approved, unchanged target with an unenforced own link is never refused and never overflows |
| GpoLinks.FullListOverflows | agent/src/windows/windows_gpo_managed.cpp:564-573 | the size guard at approval is needed: a full list of other links is accepted by the loop, written, and then fails |
| GpoLinks.RemoveThenPlace | agent/src/windows/windows_gpo_managed.cpp:551-607 | placing a removed link back at its position restores the list |
| GplinkCensus.MatchingLink | agent/src/gpo_managed.cpp:156-171 | the scanning loop finds the flags of the one case-insensitive match, none if absent, and fails on anything else |
| GplinkCensus.RenderedIsRead | agent/src/gpo_managed.cpp:158-170 | the rendering of any list of links is read back as that list |
| GplinkCensus.ReadIsRendered | agent/src/gpo_managed.cpp:158-170 | every accepted text is the rendering of the links read from it |
| GplinkCensus.MatchOfRendered | agent/src/gpo_managed.cpp:156-171 | on a rendered list within the limits: fails exactly for two matches, none exactly for no match, otherwise the flags of the match |
| GplinkCensus.Census.MergeLocations | agent/src/gpo_managed.cpp:172-180 | succeeds exactly when nothing conflicts and the total fits, with the union |
| GplinkCensus.MergeAllIsUnion | agent/src/gpo_managed.cpp:172-180 | merging several reads is their union, and succeeds exactly when they agree pairwise and the union fits |
| GplinkCensus.MergeIgnoresOrderAndRepeats | agent/src/gpo_managed.cpp:172-180 | neither the order of the reads nor repeating one changes success or result |
| GplinkCensus.VerifyCensus | agent/src/gpo_managed.cpp:181-188 | accepts exactly the observations in flag-preserving bijection with the merged locations |
| GplinkCensus.FlagsMean | agent/src/gpo_managed.cpp:184-187 | bit 0 of the flags disables a link and bit 1 enforces it |
| Utf16.DecodeAfterEncode | agent/src/gpo_override.cpp:65-77 | UTF-16 (RFC 2781 sections 2.1 and 2.2) of any scalar sequence decodes to it, surrogate pairs included |
| Utf16.EncodeAfterDecode | scripts/import-security-baselines.py:113-122 | decoding is strict: whatever decodes is the encoding of what it decodes to |
| Utf16.TerminatedIsRead | scripts/import-security-baselines.py:113-122 | a text without NUL is read back from its terminated form, whatever follows |
| Utf16.ReadHasNoZero | scripts/import-security-baselines.py:113-122 | what a terminated string reads as contains no NUL |
| RegistryPol.EncodeText | agent/src/gpo_override.cpp:65-77 | the byte loop over UTF-8 writes the UTF-16 of exactly the scalars in the text |
| RegistryPol.RegistryRecord | agent/src/gpo_override.cpp:86-101 | the rendered record for each type, or failure for a value of the wrong kind |
| RegistryPol.RenderFile | agent/src/gpo_override.cpp:123-137 | the header and the records of all settings in order |
| RegistryPol.RegistryRecords | scripts/import-security-baselines.py:99-166 | the parsing loop with its moving position reads exactly the record grammar, with the offset, size and type name of each record |
| RegistryPol.Reader.Record | scripts/import-security-baselines.py:132-166 | one record: its start, marks, strings, type and its name, bounded length, data, and its interpretation |
| RegistryPol.InterpretValue | scripts/import-security-baselines.py:147-163 | a faithful value of any of the six types is read back as itself |
| RegistryPol.SplitListOfJoined | scripts/import-security-baselines.py:155-156 | a string list comes back without the empty items at its end |
| RegistryPol.FileRoundTrip | agent/src/gpo_override.cpp:61-101 | the parsed file equals the settings in order, each with its offset and size, if and only if all are faithful: no NUL in path, name or text, numbers in the unsigned range of their type, no empty last list item |
| RegistryLayout.AcceptedIsLaidOut | scripts/import-security-baselines.py:99-166 | the parser accepts exactly the files with the header and one record after another in the layout of [MS-GPREG] section 2.2.1, and returns what their bytes say |
| RegistryLayout.InterpretIsSpelled | scripts/import-security-baselines.py:147-163 | data bytes are accepted as exactly the number, text, list or raw bytes that they spell for their type |
| RegistryLayout.RenderedRecord | agent/src/gpo_override.cpp:79-101 | what the Agent writes for a setting is one record in that layout |
| RegistryLayout.RenderedData | agent/src/gpo_override.cpp:86-101 | the data bytes of a rendered value of each type |
| RegistryLayout.RenderedHeader | agent/src/gpo_override.cpp:123-137 | the eight bytes of the header |
| RegistryLayout.ScalarBytes | agent/src/gpo_override.cpp:65-77 | the bytes of a scalar in UTF-16, low byte first, with a surrogate pair from 0x10000 on |
| RegistryPol.ValidatedIsFaithful | agent/src/gpo_override.cpp:38-60 | a setting that passed validation is faithful, but for a list that ends in an empty item or a range outside that of its type |
| RegistryPol.RecordsAreNormal | scripts/import-security-baselines.py:99-166 | whatever the parser returns, for any bytes, is faithful |
| RegistryPol.EmptyLastItemIsLost | scripts/import-security-baselines.py:155-156 | the list of one empty string comes back as the empty list |
| RegistryPol.NegativeNumberIsUnsigned | agent/src/gpo_override.cpp:88-92 | minus one comes back as 4294967295 |
| GpoArtifact.DecodeAfterEncode | scripts/import-security-gpo-packages.py:366-372 | the Agent's decoder returns exactly the encoded files' contents, in the order of their names |
| GpoArtifact.UnpackAfterEncode | scripts/import-security-gpo-overrides.py:35-52 | the importer's decoder returns exactly the encoded files |
| GpoArtifact.EncodeAfterDecode | agent/src/gpo_management.cpp:180-194 | any bytes the Agent accepts are the packing of what it returns, with the described sizes and digests |
| GpoArtifact.DecodersAgree | scripts/import-security-gpo-overrides.py:35-52 | within the Agent's limits both decoders accept the same bytes and read the same contents |
| GpoArtifact.PackedBytes | scripts/import-security-gpo-packages.py:366-372 | the bytes of an artifact: the mark, the count, and each member's length before its content |
| GpoArtifact.DecodeArtifact | agent/src/gpo_management.cpp:180-194 | the offset loop: accepted spans lie inside the bytes and tile them after the header; no subtraction underflows |
| GpoArtifact.Unpack | scripts/import-security-gpo-overrides.py:35-52 | the slicing loop, whose offset may pass the end, accepts exactly what the layout allows |
| IdentityWorker.FreshMeansValidated | agent/include/ipms/agent/native_identity_worker.hpp:81-86 | over every interleaving, when nothing moves between its loads, a true answer means that the ticket is the current generation and its own operation succeeded in a validation that began under 10000 ms ago, with no later outcome published for it |
| IdentityWorker.FreshExactly | agent/include/ipms/agent/native_identity_worker.hpp:81-86 | over every interleaving, outside the stores of a success: true exactly for the current ticket of a worker that is not stopped, whose last outcome is a success that began less than 10000 ms ago |
| IdentityWorker.FreshAfterSuccess | agent/include/ipms/agent/native_identity_worker.hpp:47-53 | right after a success of the current ticket the answer is true for exactly the times before its start plus 10000 ms |
| IdentityWorker.ReadMeansValidated | agent/include/ipms/agent/native_identity_worker.hpp:81-86 | whatever the worker does between the five loads, a true answer means the own operation succeeded and the last success published began under 10000 ms ago; it is the own one exactly when no later ticket had a success by the last load |
| IdentityWorker.LaterSuccessIsRead | agent/include/ipms/agent/native_identity_worker.hpp:47-53 | the interleaving in which the time of a later ticket is taken for that of an earlier one, whose validation is twenty seconds old |
| IdentityWorker.NeverFreshAgain | agent/include/ipms/agent/native_identity_worker.hpp:64-91 | a superseded or stopped ticket is never fresh again and reads as failed |
| IdentityWorker.RetiredIsOver | agent/include/ipms/agent/native_identity_worker.hpp:73-79 | a retired ticket is never fresh again |
| IdentityWorker.SupersededIsOver | agent/include/ipms/agent/native_identity_worker.hpp:64-71 | a ticket is never fresh again after another submission, unless the worker was stopped |
| IdentityWorker.FailureIsSeen | agent/include/ipms/agent/native_identity_worker.hpp:43-55 | over every interleaving, as long as the last outcome published for a ticket is a failure, the ticket is not fresh and reads as failed |
| IdentityWorker.StepHolds | agent/include/ipms/agent/native_identity_worker.hpp:24-57 | every critical section and every single store keeps the invariant |
| IdentityWorker.PublishedInOrder | agent/include/ipms/agent/native_identity_worker.hpp:43-57 | over every interleaving each published outcome is of the operation submitted for its ticket, and an outcome of an earlier ticket is never published after one of a later ticket |
| IdentityWorker.Worker.IsFresh | agent/include/ipms/agent/native_identity_worker.hpp:81-86 | on any reachable state, true only when the ticket's own operation was the last to be published for it, succeeded, and began under 10000 ms ago |
| ManagementJsonText.SortedIsOrdered | scripts/import-security-baselines.py:469 | the order in which controls and artifact members are listed is strictly increasing |
| ManagementJsonText.BeforeByFirstDifference | agent/src/management_json.cpp:282-298 | keys are ordered by the first byte in which they differ, and the beginning of a key comes before it |
| NormalizeControls.Normalize | scripts/import-security-baselines.py:448-476 | fails exactly for a clash or two equal identifiers; otherwise one control for each identity, in order, and all records accounted for |
| NormalizeLaws.ClashesAreContradictions | scripts/import-security-baselines.py:456-461 | normalising is refused exactly when a record differs from the next one of its setting in comparison, type or value, is of the same component and from another file |
| NormalizeLaws.ControlHolds | scripts/import-security-baselines.py:450-468 | each record is in the control of its setting, in input order; the last is effective and gives the value, and every other says whether the next one agrees with it |
| NormalizeLaws.ComponentsInOrder | scripts/import-security-baselines.py:466-467 | components are listed in the order in which they first contribute |
| NormalizeLaws.OneControlEach | scripts/import-security-baselines.py:469-473 | one control for each setting, in order |
| NormalizeControls.Fold | scripts/import-security-baselines.py:450-468 | the dictionary loop with relabelling in place holds the control of each group of records |
| NormalizeControls.EquivalentTailAgrees | scripts/import-security-baselines.py:456-465 | the labels trace the value: a tail of the records carries the value of the control exactly when all of them before the effective one are labelled equivalent, and the record before such a tail is labelled overridden exactly when it carries another |
| NormalizeControls.ComponentsAreDistinct | scripts/import-security-baselines.py:466-467 | each contributing component is listed once |
| NormalizeControls.ClashesAreBetweenNeighbours | scripts/import-security-baselines.py:456-461 | the importer raises exactly when two neighbours of one group clash |
| NormalizeControls.EveryRecordIsAccountedFor | scripts/import-security-baselines.py:474-475 | the totals over all controls add up to the number of records, so the accounting check never fires |

## Left out

- COM, WMI, ADSI, LDAP paging, GPMC, WinHTTP, pipes, ACL and reparse-point checks, and the SHA-256 rounds: represented by arbitrary answers and parameters.
- Clock parsing and expiry windows: arbitrary answers of the authority.
- The lexical checks of GPO jobs, names, SIDs, versions and distinguished names, and the serialized size of snapshots: one flag of the observed document; only the parts of the job contract that execution depends on are modelled.
- The size reserve before a managed write (`validate_managed_state`): its arithmetic over serialized text is an arbitrary answer.
- The reconciliation sidecar conversation: a release is one step that needs the reconciliation record to be loaded.
- Re-invocation of the read-only inspection worker after it was lost: only the execution fence is modelled.
- The direct enabling of links by `activate` for jobs without overrides, and the identity checks of `write_ou`: only the link lists are modelled.
- HypervGuards.ValidateManagementCommand: the verdict of the settings-patch validation is part of the command.
- GpoRecord.ParseAfterDocument: keeps the job, the result and the approval as whole fields; `GpoJournalBytes` reads them from their JSON values.
- GpoRecord.DocumentAfterParse: keeps the same three as whole fields.
- GpoJournalBytes.ReadAfterWrite: takes how the job, the result and the approval are read from their JSON values as a parameter, because the source keeps these values as they are; what it checks of them is in `ValidRecord`.
- GpoJournalBytes.WriteAfterRead: takes the same parameter.
- GpoJournalBytes.BytesNameTheRecord: takes the same parameter.
- INF and audit.csv rendering: their parsers strip and split by Python's rules, so no general round trip exists.
- RegistryPol.FileRoundTrip: asks that each value's data fit the parser's bound on one member, which the Agent's limit of 8192 bytes on all entries guarantees.
- Case folding and joining of control identities: a record carries its identity as one string, whose order stands for that of the tuple.
- The wrap-around of the 64-bit generation counter of the validation worker, and weaker memory orders than the sequentially consistent one the code asks for.
- Page splitting, inventory, the updater and the consoles: they would add easy members only.
