# pveforge: a verified model of its mutation protocols

pveforge changes a Proxmox VE cluster from outside: it rotates API tokens, stages and commits
network configuration, rewrites single fields of a cluster-wide file, frees orphaned volumes,
creates tagged VMs and records the keys it trusts. Its commands can be refused, lose their reply
or take effect late, and other people act on the same cluster meanwhile. This project models
those protocols in Dafny and proves what each of them promises about the remote state, the roster
and the result it reports.

`dafny verify dfyconfig.toml` checks everything.

## How the world is modelled

- A remote system is explicit state. Each call first lets everyone else act, then answers as its
  contract allows: refused, failed before or after taking effect, or succeeded. In
  `Rotation`, `NetworkStage` and `Pins` that choice is nondeterministic (`*`) inside a class that
  stands for PVE, the node or the roster file, and what is proved holds for every choice. In
  `Engine` and its three ops it is a function from the call's number to the "weather" around it,
  so a whole run is a value that lemmas can speak about; what is proved holds for every such
  function, and each op's class is proved to behave as its specification functions say. In
  `StorageContent`, `StorageVolume` and `BridgeIsolation` the remote keeps its own record of what
  it got or answered, which the op never sees; what the op reports is proved against that record,
  and where others write too, `Through` says that nothing but calls changed the remote. So does
  PVE in `Rotation`, of every command and validation. In `UniqueTag` it is a labelled transition
  relation over any number of creates.
- Objects that the source updates in place (`runner`, `tlsCapture`, the ops) are classes with
  those fields. Go's `Op` interface is the datatype `Engine.Op` of its methods as functions.
- JSON, SHA-256, SSH, TLS, age, HTTP and the file lock are contracts: decoded maps of scalar
  strings, an injective hash, sessions that are opened only to the pinned key, exclusive locks,
  compare-and-set writers whose failed write leaves the file as it was.

What the proofs assume, module by module:

- `Rotation`: only this run writes the token of this name. A command that exits non-zero did
  nothing; a transport error means it was already carried out or never will be; a command that
  timed out may also be carried out once, later. A list that was read is truthful. No late write
  is pending when a run starts. `Granted` and every verdict but not-authorized come from reads
  that authenticated with the secret (internal/pve/validate.go). A secret is modelled by its mint
  serial number, so "created by this run" is a comparison of numbers.
- `NetworkStage`: reads show the staged file while there is one; the apply worker of a commit
  takes the whole staged file. PVE may write anything into the staging area on a stage.
  Everyone else may stage, discard, edit the running file, start workers and change links.
  `OnlyStaging` says that no worker was pending and that between two instants they only staged
  and discarded; it is all that the claims about the running file need (`KeepsRunning`,
  `NeverMixed`, `RunsWhole`). The node records each file that a worker took, at the instant it
  was taken (`landed`). `Undisturbed` says that nobody else acted at all, which a claim about
  what was pending at an earlier instant needs. The rest holds under any interference.
- `StorageContent`: the digest is a fingerprint of the whole file, different for different
  files; config keys are lower case, as PVE writes them.
- `StorageVolume`: a free is given a complete list of the VMs that could claim a volume of the
  storage (`Complete`), as its command gathers it.
- `UniqueTag`: the guest list may lag by any amount but never answers with a state older than one
  it answered with before. A guest keeps its identity when it is retagged; the claims are
  about VMs that have carried the create's tag ever since they were made (`Kept`), whatever else
  was done to their tags. A create whose effect comes later than its lost reply counts as an act
  of someone else.
- `Pins`: the roster changes only by the runs, which hold its per-target lock; in particular it is
  the same from the checks made before the lock on. The node's keys do not change during a run.

Two claims a reader may take from the repository do not hold in general, and are proved with the
exact condition they need:

- `UniqueTag`: a create that ends without a warning need not have made the only VM with its tag. A
  list that lags can show its wait an earlier VM with the same tag and VMID, a twin, in place of
  its own, and then the next create of the tag is let through while the first VM exists
  (`ReusedVmidMisleads`). `SilentSuccessIsAlone` holds for every create without a twin
  (`HasTwin`) among the states of the cluster that the list could still answer with when the VM
  was made; `MisledExactlyByTwin` says that with one, and only then, the run can go on to a state
  that violates the claim.
- `SecretsEnv`: the canonical text of an accepted secrets file can be too long to be accepted
  (`SealedTooLong`). `RoundTrip` says when: exactly for an input of 65536 bytes in which every
  line is a pair, with no blank line, no comment and no final line end (`Outgrown`).

And a consequence worth knowing: the guard of a bridge destroy needs the interface to be listed
as active after the DELETE was staged (`GuardHeld` in `NetworkBridge.NetworkBridgeEnsure.Apply`).
An interface that is configured but not in the kernel is therefore never destroyed, and none is if
PVE's answer already leaves a staged deletion out; likewise a create over a live bridge is never
committed.

## Model

| member | source | states |
|---|---|---|
| Rotation.Runner.TokenPhase | internal/bootstrap/rotation.go:908-991 | Every run ends in `RunContract` and `RunCommands`: no result means token and roster copy are as they were; a nil error means the roster holds the requested id with the very secret PVE holds and this run saw granted, and its other fields were written; every report is honest about leftovers, the prior token, the outcome, the orphaned id and the validation; the token that was there is the target of a remove only if the roster held exactly it and PVE condemned its grants in this run with a verdict other than not-authorized; a token of the run is validated only once its grants are there; it is left behind only by a remove of it that was sent and failed, or by an add without an answer that the list did not show, and never where the only call that failed is the one that ended the mint; a run that touches nothing says why and it is so, and a run that ends in an error met a call that failed or a validation that was not granted |
| Rotation.Runner.HeldPhase | internal/bootstrap/rotation.go:932-990 | So for a roster that holds exactly the requested token: reused, refused for cause, or replaced |
| Rotation.Runner.ReplaceHeld | internal/bootstrap/rotation.go:971-990 | Replacing the held token: the roster copy is cleared before the mint, so a later failure never leaves it pointing at a dead token unless the report says stale |
| Rotation.Runner.RemoveHeld | internal/bootstrap/rotation.go:1023-1051 | Going on means the name is absent with no remove pending; stopping without a result means nothing changed; otherwise the prior token is reported unknown and the roster copy cleared or reported stale |
| Rotation.Runner.EndPriorUnknown | internal/bootstrap/rotation.go:1009-1019 | The roster copy is cleared, or reported as stale after a revocation; the outcome is revoked-not-replaced |
| Rotation.Runner.MintAndPersist | internal/bootstrap/rotation.go:841-904 | From a free name: either the roster holds the very token PVE holds, or the roster is untouched and whatever may be left on PVE is named, under lost replies and late adds, and is left in spite of the cleanup that was tried (`CleanedUp`) |
| Rotation.Runner.AddUnanswered | internal/bootstrap/rotation.go:841-904 | An add without an answer: a token that the list shows is removed, and one of this run that exists or may still land is reported as a leftover |
| Rotation.Runner.ValidateAndPersist | internal/bootstrap/rotation.go:841-904 | Validation and persistence of a fresh token: a verdict removes it again, a failed roster write too, with a remove that is sent and whose failure alone leaves it; only a granted one ends without an error |
| Rotation.Runner.ValidatePostMint | internal/bootstrap/rotation.go:806-836 | At most three validations, with a delay between them; a success or a too-wide answer ends them, another verdict counts only after the third unless the run is cancelled, a non-verdict only if it came first, and a verdict is one that was really answered |
| Rotation.Runner.RemoveFresh | internal/bootstrap/rotation.go:766-795 | It is only called on the run's own token and sends a remove of that token; what is reported as left follows a remove that failed, and with no failure nothing is left and nothing reported; what it cannot prove gone it reports, "exists" only when the token is there and no remove is pending |
| Rotation.Runner.Abandon | internal/bootstrap/rotation.go:745-795 | Every failure of a mint after its add removes the fresh token and reports what is left (`Swept`) |
| Rotation.Runner.Fail | internal/bootstrap/rotation.go:745-762 | Revoked-not-replaced exactly when the held token was removed |
| Rotation.OneRunAccounts | internal/bootstrap/rotation.go:766-904 | One run cannot start an unheld token or a stale roster copy without reporting it |
| Rotation.AllAccounted | internal/bootstrap/rotation.go:766-1019 | Over any number of runs: a token some run created that is on PVE or may land and that the roster does not hold was reported, and a roster copy that is no longer the token on PVE was reported |
| Preflight.Check | internal/bootstrap/rotation.go:347-402 | It passes exactly when roles, pins, node, owner, token list and roster all do, and then tells truthfully whether the token is there; what a refusal says is so |
| Preflight.RoleGrants | internal/bootstrap/rotation.go:347-424 | A role grants exactly the names whose joined text is its first entry's privileges, if there are any |
| Preflight.RefusedRole | internal/bootstrap/rotation.go:347-424 | A role is refused as unknown, malformed or empty only when it is so |
| Preflight.SetDiff | internal/bootstrap/rotation.go:427-448 | The sorted members each list lacks, no other; both empty exactly when the lists are the same set |
| Preflight.CheckOwner | internal/bootstrap/rotation.go:477-508 | Root passes unread; any other owner exactly when active and lacking nothing at any path; what a refusal says is so |
| Preflight.OwnerCovers | internal/bootstrap/rotation.go:514-527 | Sorted, exactly the privileges the owner lacks, and exactly those it holds without propagating when that is asked |
| Preflight.CoversIffNothingLost | internal/bootstrap/rotation.go:463-527 | An owner covers a grant exactly when PVE's intersection of the token's and the owner's privileges, flag by flag, loses nothing of it |
| Preflight.PassingGrantsAreHeld | internal/bootstrap/rotation.go:347-527 | After the checks a token of that owner holds at every path exactly its role's privileges, propagated as asked |
| AclPath.NormalForm | internal/bootstrap/rotation.go:249-265 | A path is accepted exactly if it is over the charset and not "" or "0", and its normal form is "/" and its non-empty segments joined |
| AclPath.SamePathIffSameSegments | internal/bootstrap/rotation.go:249-265 | Two accepted paths have one normal form exactly when they have the same segments |
| AclPath.NormalizeIdempotent | internal/bootstrap/rotation.go:249-265 | A normal form is its own normal form |
| AclPath.SegmentsOfCanonical | internal/bootstrap/rotation.go:249-265 | A list of names is read back from the path made of it |
| AclPath.NormalizeGrants | internal/bootstrap/bootstrap.go:1187-1204 | The loop computes `Normalized`, whose path checks and list check are parameters |
| AclPath.NormalizedIs | internal/bootstrap/bootstrap.go:1187-1204 | A list is accepted exactly when every path is and PVE's own rule accepts the grants under their normal forms, which are then the result; a refusal names a path that is refused |
| AclPath.RenormalizingChangesNothing | internal/bootstrap/bootstrap.go:1179-1204 | Normalizing an accepted grant list again accepts it and changes nothing |
| Engine.Run | internal/idempotent/op.go:175-228 | For every op the loop is the recursive specification `RunSpec`, result, final state and calls alike |
| Engine.RunShape | internal/idempotent/op.go:116-228 | Without the lock nothing is called. With it, at most three attempts, each after a conflict of the one before, every call inside one hold; an Apply follows only a read that force or an unsatisfied op makes it follow, a no-op only one that was satisfied without force; Before is what the last attempt's read showed, After what the read after the Apply showed if it showed anything; Changed exactly when the last Apply succeeded; PostApply and PostNoop only on their own paths, with their results |
| Engine.ForceApplies | internal/idempotent/op.go:175-228 | A forced run never ends well without an Apply that succeeded |
| Engine.AttemptsShape | internal/idempotent/op.go:182-228 | The states the attempts begin in, what explains the last one's end, and the calls, from any attempt on |
| Engine.RunKeepsContract | internal/idempotent/op.go:175-228 | The proof rule the ops use: a contract met call by call holds of every way a run can end |
| StorageContent.ToggleLosesNothing | internal/idempotent/storagecontent.go:154-237 | Whatever others write: nothing but the run's calls changed the remote; at most one write takes effect, it stores the types of that instant and the new one and touches no other storage; a changed run has on the remote's record a read answered after its write, of a file with the type in it and with every other field, absent read as "", as in the file it read before, which is the very file that its write replaced; a run without a change was not forced, wrote nothing and last read a file with the type in it |
| StorageContent.UnknownType | internal/idempotent/storagecontent.go:154-165 | A type that PVE does not know is never written, and never reported as a change |
| StorageContent.CalmToggle | internal/idempotent/storagecontent.go:154-237 | When nothing fails and nobody interferes, a run adds the type, and reports a change exactly if it was not there |
| StorageContent.ContentOpMeets | internal/idempotent/storagecontent.go:154-197 | Each call of the op keeps that contract, stated of the remote's own record |
| StorageContent.PutAddsOnly | internal/idempotent/storagecontent.go:166-190 | A digest-guarded write that takes effect replaces the very file that was read, and adds the type to it; a conflict writes nothing |
| StorageContent.GuardConfirms | internal/idempotent/storagecontent.go:203-237 | The guard passes only on an answered read of a file that has the type and agrees on every other field with the file the first snapshot was read from |
| StorageContent.ApplyLeaves | internal/idempotent/storagecontent.go:154-237 | What one attempt leaves on the remote's record: no write after a conflict; after a success the two reads that frame its write; at most the one write after a failure |
| StorageContent.ApplyThrough | internal/idempotent/storagecontent.go:154-237 | An attempt reaches the remote only by its calls |
| StorageContent.ParsePrint | internal/idempotent/storagecontent.go:249-284 | Parsing a printed list of content types gives the set back |
| StorageContent.ContentTypesAre | internal/idempotent/storagecontent.go:262-273 | The types of a list are exactly its comma-separated parts without the white space around each, the empty ones left out |
| StorageContent.ReadTypesArePlain | internal/idempotent/storagecontent.go:262-273 | Every parsed type is non-empty, trimmed and free of commas |
| StorageContent.ParseContent | internal/idempotent/storagecontent.go:262-273 | The loop computes the set of content types |
| StorageContent.PrintContent | internal/idempotent/storagecontent.go:277-284 | Collecting the set in any order and sorting prints one list |
| StorageContent.ContentEnsure.Read | internal/idempotent/storagecontent.go:117-130 | The op's read, with its snapshot field, is the specified one |
| StorageContent.ContentEnsure.Apply | internal/idempotent/storagecontent.go:154-197 | The op's apply is the specified one |
| StorageContent.ContentEnsure.Guard | internal/idempotent/storagecontent.go:203-237 | The diff-guard is the specified one |
| StorageVolume.FreesOnlyOrphans | internal/idempotent/storagevolume.go:252-353 | With a complete VM list no DELETE of a run targets a claimed volume; Applied is exactly the volumes whose delete task finished on the remote's record, a prefix of the snapshot, all of it when the run reports a change; a selector that does not fit sends nothing |
| StorageVolume.CalmFree | internal/idempotent/storagevolume.go:252-353 | When nothing fails, a run frees exactly the listed volumes that no VM of the claimed set claims, for a complete one that no VM of the cluster claims, and reports a change exactly if there was one |
| StorageVolume.FreeAllPrefixed | internal/idempotent/storagevolume.go:318-353 | Freeing stops at the first failure with at most one DELETE beyond what finished |
| StorageVolume.UnclaimedIsUnclaimed | internal/idempotent/storagevolume.go:252-306 | Under a complete list every orphan is claimed by no VM of the cluster |
| StorageVolume.UnclaimedAre | internal/idempotent/storagevolume.go:252-306 | The orphans are exactly the listed volumes that no VM the selector names claims |
| StorageVolume.ReadAnswers | internal/idempotent/storagevolume.go:252-306 | A read shows orphans only if exactly one selector fits and every read was answered; a list that could not be read is no empty list |
| StorageVolume.VolumeFreeOrphans.Read | internal/idempotent/storagevolume.go:252-306 | Exactly one selector, the node-scoped one never on shared storage |
| StorageVolume.VolumeFreeOrphans.Apply | internal/idempotent/storagevolume.go:318-331 | The loop over the snapshot is the specified one |
| BridgeIsolation.FaithfulName | internal/idempotent/bridgeisolation.go:296-320 | Two valid ops want one hookscript exactly when they agree on storage, VMID and the set of net indices |
| BridgeIsolation.NameOfTwo | internal/idempotent/bridgeisolation.go:296-320 | The name written out, for two indices in either order |
| BridgeIsolation.SuffixNamesTheSet | internal/idempotent/bridgeisolation.go:304-316 | The suffix names the set of indices, in whatever order they are given |
| BridgeIsolation.ItoaInjective | internal/idempotent/bridgeisolation.go:296-316 | Decimal rendering tells numbers apart |
| BridgeIsolation.ItoaValue | internal/idempotent/bridgeisolation.go:296-316 | The rendering is the decimal numeral: its value is the number |
| BridgeIsolation.SatisfiedNamesThisSet | internal/idempotent/bridgeisolation.go:189-208 | A stopped VM is reported satisfied exactly when its script name was generated for this storage, VM and set |
| BridgeIsolation.SatisfiedIsIsolated | internal/idempotent/bridgeisolation.go:156-208 | What Satisfied says of an undisturbed read is so of the VM: wired to the wanted script and, while it runs, every tap of its net indices present and isolated; and it says no otherwise |
| BridgeIsolation.ReadAnswered | internal/idempotent/bridgeisolation.go:156-180 | A read shows the VM exactly if each of its calls was answered, and the op's fields are then the VM's |
| BridgeIsolation.ApplyAccounts | internal/idempotent/bridgeisolation.go:234-275 | However an attempt ends, `applied` lists exactly the effects on the remote's record that were answered for; a success changed exactly what was to be changed, in order; a conflict was told of everything it changed; a failure may have lost the reply to its last call and to no other |
| BridgeIsolation.CalmApply | internal/idempotent/bridgeisolation.go:234-275 | When nothing fails and nobody interferes, the VM ends wired to its own script, every tap isolated while it runs |
| BridgeIsolation.CalmRun | internal/idempotent/bridgeisolation.go:156-279 | When nothing fails and nobody interferes, a run leaves the VM isolated and reports a change exactly if it was not |
| BridgeIsolation.WroteIsExact | internal/idempotent/bridgeisolation.go:277-279 | Over a whole run, retries included and however it ends, nothing but its calls changed the remote, and Applied lists exactly what the remote has on record as changed and answered for; so Wrote holds exactly when something was changed, unless the run failed, where the reply to the last call may be lost |
| BridgeIsolation.NoOpRunThatWrote | internal/idempotent/bridgeisolation.go:273-279 | A run that ends as a no-op although its first attempt uploaded, and whose Wrote holds |
| BridgeIsolation.BridgeIsolationEnsure.Read | internal/idempotent/bridgeisolation.go:156-180 | The op's read is the specified one |
| BridgeIsolation.BridgeIsolationEnsure.Apply | internal/idempotent/bridgeisolation.go:234-275 | The op's apply is the specified one |
| AppliedList.OnceIsTheSet | internal/idempotent/vmfields.go:448-455 | What is listed as applied is what was written, nothing missing and nothing twice |
| Boolish.EqualIffSameMeaning | internal/idempotent/boolish.go:28-50 | Two values are equal exactly when they stand for the same boolean or are the same text |
| Boolish.BooleanSpellings | internal/idempotent/boolish.go:41-60 | A value is true or false exactly as one of the words "true" and "1", "false" and "0", in any letter case and with white space around it |
| Text.TrimOf | internal/idempotent/boolish.go:41-50 | Trimming takes all white space off either end and nothing else |
| Text.LowerFolds | cmd/pveforge/vm.go:757-813 | Two texts have one lower case exactly when they differ in letter case only |
| Boolish.EqualIsEquivalence | internal/idempotent/boolish.go:28-50 | Reflexive, symmetric and transitive |
| NetworkBridge.NetworkBridgeEnsure.Apply | internal/idempotent/networkbridge.go:525-703 | A destroy stages the delete of its interface and of no other; a create posts it under its name, or puts it where it is there already, with the caller's fields, a type that defaults to bridge and an autostart, and nothing else. Under any interference the writes are one stage that failed, or a stage followed by exactly one discard or one commit; an accepted commit is never followed by a discard; a commit happens only if the guard held; a discard that succeeds leaves nothing staged. Whoever else stages and discards, what runs is the old file or the whole of the file that was staged when the worker took it, the latter on success, and an interface that is already as the op would make it, live for a create and not live for a destroy, is never committed. Success means the management bridge's link is unchanged and the interface is live as asked, and its stanza unchanged unless somebody acted since the guard read it. A failure in which every call was answered has one of the named causes |
| NetworkBridge.NetworkBridgeEnsure.StageGuarded | internal/idempotent/networkbridge.go:525-630 | Steps 1 to 5: what was staged is what the caller asked for, given the view before it (`AsksFor`); going on means the guard held over that very stage; the running file stays as it is whoever else stages and discards |
| NetworkBridge.NetworkBridgeEnsure.StageThenGuard | internal/idempotent/networkbridge.go:589-630 | Steps 2 to 5: the request in the caller's terms (`AsksFor`), and that a stage which stands is either guarded or discarded |
| NetworkBridge.RequestAsks | internal/idempotent/networkbridge.go:774-815 | The request of every valid op is the one asked for: verb, interface and fields |
| NetworkBridge.NetworkBridgeEnsure.Guarded | internal/idempotent/networkbridge.go:598-630 | Every failure after the stage and before the commit ends in exactly one discard |
| NetworkBridge.NetworkBridgeEnsure.GuardSelfCheck | internal/idempotent/networkbridge.go:717-756 | Neither PVE's active flag nor the kernel link may already show the state after the commit |
| NetworkBridge.ActiveWords | internal/idempotent/networkbridge.go:759-772 | PVE's active field says no exactly as white space or one of three words |
| NetworkBridge.NetworkBridgeEnsure.Converges | internal/idempotent/networkbridge.go:562-587 | An existing interface is converged only if its type is the wanted, non-empty one; another is refused with nothing staged |
| NetworkBridge.NetworkBridgeEnsure.CommitVerified | internal/idempotent/networkbridge.go:632-703 | A commit without an answer is discarded, one that was accepted never is; whoever else stages and discards, what runs is the old file or the whole of the one the worker took; the kernel checks |
| NetworkBridge.Satisfied | internal/idempotent/networkbridge.go:342-402 | The loop is the specified subset match; a destroy is satisfied exactly by an interface that is not there, an unset mode never |
| NetworkBridge.CreateConverges | internal/idempotent/networkbridge.go:342-454 | For every valid create, Satisfied holds of a stored result exactly when it keeps what was sent, in any spelling of a boolean, an autostart that is off left out, any fields added |
| NetworkBridge.WantedIsCanonical | internal/idempotent/networkbridge.go:425-475 | What is sent is in PVE's own terms, keeps the caller's fields, and is not changed by filling in the defaults again |
| NetworkFields.NetworkFieldsEnsure.Apply | internal/idempotent/networkfields.go:189-274 | The same write discipline and the same claim about the running file, whoever else stages and discards; and if nobody else acts from the second snapshot to the end, every other interface runs exactly as it was pending before the stage, the digest apart; Applied is what was set; a failure in which every call was answered has one of the named causes |
| NetworkFields.NetworkFieldsEnsure.StageGuarded | internal/idempotent/networkfields.go:195-239 | Going on means that no other interface differs between the two snapshots; the stage puts the interface with each pair as asked and its current type, and nothing else; the running file stays as it is whoever else stages and discards |
| NetworkFields.NetworkFieldsEnsure.OthersUnchanged | internal/idempotent/networkfields.go:222-239 | The guard passes only if every other interface is the same |
| NetworkFields.NetworkFieldsEnsure.CommitVerified | internal/idempotent/networkfields.go:241-274 | Commit, wait and kernel check, with the discard of an unknown commit; whoever else stages and discards, what runs is the old file or the whole of the one the worker took |
| NetworkFields.ChangedOtherInterfaces | internal/idempotent/networkfields.go:344-366 | Exactly the interfaces whose hashes differ, in order; none exactly when no hash differs |
| NetworkFields.HashesTellOthers | internal/idempotent/networkfields.go:323-366 | Equal hashes are equal interfaces: which others there are, and every field but the digest |
| NetworkFields.OtherInterfaceHashes | internal/idempotent/networkfields.go:323-336 | The hash of every interface but one |
| NetworkFields.DiffFields | internal/idempotent/networkbridge.go:1026-1060 | Exactly the differences there are, in the order of the keys; none exactly when the stanzas agree but for the digest |
| NetworkFields.DiffsAre | internal/idempotent/networkbridge.go:1026-1060 | Among some keys, each difference there is, and none else |
| NetworkFields.Satisfied | internal/idempotent/networkfields.go:156-171 | Every requested field is there and equal |
| NetworkFields.SetConverges | internal/idempotent/networkfields.go:120-171 | The op is satisfied exactly when the server kept every field it was sent, a boolean in any spelling |
| UniqueTag.SilentSuccessIsAlone | cmd/pveforge/vm.go:190-321 | In every run of any number of creates, any lag and any acts of others, retags and reused VMIDs included: a create that ended without a warning, whose VM kept the tag and that had no twin, made the only VM that any create with the tag made and that kept it, and the next check is shown it |
| UniqueTag.InvHolds | cmd/pveforge/vm.go:190-321 | The invariant behind it, for every run |
| UniqueTag.InvStep | cmd/pveforge/vm.go:190-321 | Every step of every create, and every act of anyone else, keeps it |
| UniqueTag.TurnsSettled | cmd/pveforge/vm.go:785-813 | When a wait without a twin is shown its VM alone, no other create of the tag has a VM that kept it |
| UniqueTag.SettledHolds | cmd/pveforge/vm.go:757-813 | From the end of its wait on, such a create is settled: no other create of the tag is past its check, and every list a check may still be shown is from after its VM was made |
| UniqueTag.CheckIsShown | cmd/pveforge/vm.go:757-783 | A check made while such a silent VM keeps the tag is shown it, and so refuses |
| UniqueTag.MisledExactlyByTwin | cmd/pveforge/vm.go:757-813 | When a VM has just been made, some continuation of the run ends with its create misled, silent with its VM kept but not alone, exactly if it has a twin |
| UniqueTag.MisledHadTwin | cmd/pveforge/vm.go:757-813 | Whatever the run goes on to, a create that ends misled had a twin |
| UniqueTag.TwinMisleads | cmd/pveforge/vm.go:785-813 | A twin that the list can still show ends the wait silently at its next poll, misled |
| UniqueTag.UnusedVmidHasNoTwin | cmd/pveforge/vm.go:785-813 | There is no twin if the VMID was not used under the tag before |
| UniqueTag.LocksStep | cmd/pveforge/vm.go:190-205 | The tag's lock is held by exactly one create from before its check to the end of its wait |
| UniqueTag.ReusedVmidMisleads | cmd/pveforge/vm.go:785-813 | A run in which a misled create is followed by a second one: the second VM is made while the first exists, and both carry the tag |
| Pins.Runner.Connect | internal/bootstrap/bootstrap.go:369-552 | A bootstrap up to its token phase: the key it installed is held by the roster with no removal attempted, or gone and reported removed, or reported as maybe still there; no other key changes; pins change only as `PinStep` allows; connected, an insecure_tls target, and with a reprovision any target that had a TLS pin, is pinned to the key the node and its address both serve, and any other target keeps its TLS entry; a key may remain in doubt only as `LeftInSpite` says; the SSH pin is then the node's key, and the operator's fingerprint if one was given; a new key is installed exactly where that key was not pinned; it is refused exactly by the named rules or by a roster that fails, and fails only for a call that failed or for what the node shows (`RuledOut`): another fingerprint than was given or is stored, another TLS key |
| Pins.Runner.FirstRun | internal/bootstrap/bootstrap.go:479-541 | The installing branch: the connection is asked for blindly only where no fingerprint was given; every failure in it is accounted for, and a key may remain only if the install had no answer or reported no fingerprint, or if, beyond the call that ended the run, its removal failed too |
| Pins.Runner.OverSession | internal/bootstrap/bootstrap.go:436-477 | The keyless and stored-pin branches install and remove nothing, and fail only for a call that failed or for what the node shows |
| Pins.Runner.Admit | internal/bootstrap/bootstrap.go:369-429 | What is refused before a connection leaves both pins as they are; what is admitted breaks none of the named rules |
| Pins.Runner.DropKeyOver | internal/bootstrap/bootstrap.go:1856-1871 | A removal is sent; "removed" is reported only if the key is gone, and that it may remain only if the removal failed |
| Pins.Runner.DropKeyOverPassword | internal/bootstrap/bootstrap.go:1837-1848 | So over a password session, which is never asked for without a fingerprint to pin |
| Pins.TlsCapture.Capture | internal/bootstrap/bootstrap.go:593-625 | A stored pin keeps its source, is replaced only by a reprovision, and a failure changes nothing; what rules the pin out fails without a write |
| Pins.PinTLSRun.Go | internal/bootstrap/pintls.go:173-258 | The pin written is vouched for and was reported; it is the one the address serves; a different stored pin only gives way to a repin; it goes through only where the flags fit the target |
| Pins.PinTLSRun.Find | internal/bootstrap/pintls.go:205-243 | Where a pin comes from: the stored SSH pin's session or the operator, and always also the address |
| Pins.ImportRun.Go | internal/bootstrap/bootstrap.go:1679-1799 | An import writes a pin only where there is none, the operator's own, and after validating through it; it goes through only if every call did, and is refused only for the named reasons |
| Pins.RecordedBy | internal/bootstrap/bootstrap.go:593-625 | Over any sequence of bootstrap, pin-tls and import runs: the TLS entry was there from the start, or one run recorded and vouched for it and it has not changed since |
| Pins.TofuOnlyWhenAsked | internal/bootstrap/bootstrap.go:642-671 | The source ssh-tofu is recorded only by a run given --ssh-tofu |
| Pins.SourceStaysWithPin | internal/bootstrap/bootstrap.go:600-606 | While the pin stays, so does its recorded source |
| Pins.NeverReplacedUnasked | internal/bootstrap/bootstrap.go:752-766 | Runs that neither reprovision with a fingerprint nor repin keep both stored pins |
| SecretsEnv.ParseEnv | internal/harnesssecrets/env.go:58-97 | The parser is the specified one |
| SecretsEnv.FormatEnv | internal/harnesssecrets/env.go:101-107 | The printer is the specified one |
| SecretsEnv.ParseFinds | internal/harnesssecrets/env.go:58-97 | Accepted pairs are sorted, each name once, each value text without control characters, and every byte of the input is in a pair or on a skipped line |
| SecretsEnv.ParseDecides | internal/harnesssecrets/env.go:42-97 | A text is accepted exactly when, in its own words, it is well formed; the pairs are exactly those its lines give; and what an error says, and of which line, is so |
| SecretsEnv.RoundTrip | internal/harnesssecrets/env.go:58-107 | The canonical text is as long as the input with a final line end less the skipped lines; it parses to the same pairs except exactly for an input of 65536 bytes in which every line is a pair, where it is refused as too large |
| SecretsEnv.CanonicalParses | internal/harnesssecrets/env.go:58-107 | The other round trip: pairs in order, each name once and within the bound, print as a text that parses to those very pairs |
| SecretsEnv.EnvRoundTrip | internal/harnesssecrets/env.go:28-107 | So for the two allowed names, and no pair has another name |
| SecretsEnv.SealedTooLong | internal/harnesssecrets/env.go:58-107 | An accepted input whose canonical text is refused |
| SecretsEnv.Utf8Parts | internal/harnesssecrets/env.go:62-69 | A text cut at a one-byte character is text on both sides, and only then |
| SecretsEnv.Utf8IsEncoding | internal/harnesssecrets/env.go:62-64 | What is accepted as UTF-8 is the encoding of some characters |
| SecretsEnv.EncodedIsUtf8 | internal/harnesssecrets/env.go:62-85 | Every encoding is accepted, and has a control character exactly if one of the characters is C0, DEL or C1 |
| Membership.CheckMembership | internal/bootstrap/inventory.go:216-251 | It passes exactly when the two lists bear each other out, and any error names something that is so |
| Membership.AgreeIsSameMembership | internal/bootstrap/inventory.go:212-251 | With no id listed twice, that is exactly when both lists define one membership wherever members are listed |
| Membership.JoinIsExact | internal/bootstrap/inventory.go:155-189 | A user is given exactly the entries naming it and those of every group that either list puts it in |
| Membership.UserAcls | internal/bootstrap/inventory.go:155-177 | The loops collect those entries |
| Membership.Inventory | internal/bootstrap/inventory.go:121-210 | An inventory is given exactly when every role is known, the lists agree and the accounts that are needed were read; then it has every user in order, with its id and groups, exactly the entries it holds, its own first and then those of each group, and its account by realm, numeric name and the node's answer |
| Membership.EntryTells | internal/bootstrap/inventory.go:155-210 | So for each entry, in its own words |
| Membership.AccountIsTold | internal/bootstrap/inventory.go:170-210 | A @pam user whose name is no number is looked up, found or absent by the node's answer; any other is told apart |

## Left out

- Rotation: the sessions behind the commands (a dead one is redialled once, internal/bootstrap/rotation.go:683-712) are folded into a read that fails; which grant a `grantACL` issues, and the text of errors, are not modelled.
- Rotation.Runner.AddUnanswered: the source has it inline in mintAndPersist; so with GrantAndGoOn, ValidateAndPersist, Persist and Abandon, and in tokenPhase with HeldPhase, ReplaceCondemned, ReplaceHeld and ClearAndMint.
- Preflight.Check: the JSON of the lists, and how an owner's expiry and permissions are read from pveum, are not modelled; a read is a value or nothing.
- AclPath: PVE's path whitelist (a regular expression) and pve.CheckGrants are parameters; what is proved holds for any of them. The parsing of a grant's text is left out.
- Engine: a context that ends is one of the ways a call can fail; reads and applies are total functions of a state, so an op that never returns is not modelled.
- StorageContent: the case folding of config keys, and the defensive wait on a task id, which is one bit of the weather.
- StorageVolume: how a node's or the cluster's VMs and a VM's volumes are enumerated (cmd/pveforge/storage.go and internal/pve); completeness of the list is the assumption that the command's quorum check and warning are about. VolumeAllocEnsure is left out.
- StorageVolume.FreesOnlyOrphans: the claims are fixed for the length of a run; a volume that a VM claims after the read is not noticed by the source either.
- BridgeIsolation: the text of the script, the registry of root-only fields and the quoting of the node's commands.
- NetworkBridge: how an error is recognised as "this interface does not exist", and JSON values that are not scalars; the timeouts of a discard.
- NetworkFields.NetworkFieldsEnsure.Apply: when someone else stages after the second snapshot, the whole of what they staged runs, other interfaces included, and the source does not promise otherwise; so for the management bridge's stanza in NetworkBridge.NetworkBridgeEnsure.Apply.
- NetworkStage: when someone else edits the running file, starts a worker or changes links, nothing is claimed of the running file; what is written, when and why, is claimed then too.
- NetworkStage: what PVE writes into the staging area for a request; it may be anything, so success is stated of the request that was sent, of what was pending when the guard looked, and of the kernel's links.
- NetworkFields.DiffFields: two raw values that differ only in white space are one value here, so the source's text for a hash mismatch without a difference does not occur.
- UniqueTag: the VM's own lock and the checks of the VMID, which only add ways to refuse; time itself, so a wait may give up at any moment.
- Pins: the token, owner and passphrase checks around the pins are yes-or-no choices; SSH key material is an identity; the CLI's earlier repetition of the same refusals is left out. Pins.Runner.Connect ends where Rotation.Runner.TokenPhase begins; the source has ConnectAdmitted, FirstRun, Adopt and OverSession inline in Run.
- Pins.ImportRun.Go: what it does with the token (held, replaced, orphaned) is not modelled, only its TLS pin.
- SecretsEnv: sealing and opening (age) and the command around them.
- Membership.AgreeIsSameMembership: where an id is listed twice the later entry counts, which `CheckMembership` states; the plain reading needs unique ids.
- Membership.Inventory: the inventory's group entries (a group's own ACL entries and members) and the fields that are copied as they are.
- The commands, flags, output, schema discovery, NVMe fragments, snapshots, VM field edits and the harness capture tools are not modelled: they are single-pass checks and plumbing.
