# A model of peppy's release and platform protocols

This project models, in Dafny, the parts of the peppy repository whose correctness is hardest to
see from the code: the restartable publish of a release, the proof a machine gives of its key, the
docs check's diff splitter and its pool of workers, the renewal of an enrollment, the refresh of a
session, device-login polling, the choice of the docs check's base commit, the ELF reader and the
build-state marker. `dafny verify dfyconfig.toml` checks all of it.

**Publish** (`CommitGraph`, `ReleaseStores`, `Remote`, `Tracking`, `HubTagging`, `DraftUpload`,
`Publish`, `Prepare`). A commit is a value that holds its parents, so its history is part of it, as
its id is in git. The remote stores (both branches, the git tags, the releases with their assets,
the hub tags) are a value, and `Step` lists every change they may take. The publish itself is
imperative: methods that send one request after the other to a `Remote` object, whose `net` decides
for each request whether it is delivered, refused, dropped, cut short, loses its reply or takes the
process with it, and which merge of other people lands on `dev` before it. A request failed when it
or its reply was lost or denied on the way, or when a merge landed together with a push of `dev`.
One that the server turns down for what it asks is no failure, so a method that promises success
without a failed request also promises that none of its requests is turned down. Each method proves
that every request it sends, with whatever effect it has, is one of the steps. The steps keep
`Safe`, so it holds in every state of every series of attempts. The assumptions are those of the
release workflow: one publisher at a time, a fresh clone for each attempt, and other people who only
extend `dev`, do not touch the notes file and move neither `main` nor a hub tag.

**Machine proof** (`MachineProof`). Signatures are ideal: one verifies exactly when a daemon of the run
made it. The chain check of the CA is any predicate. The encoding and the decision are the code's.

**Docs check** (`DiffSplit`, `JudgePool`, `DocsGaps`, `DocsBase`). The splitter's loops are methods proved
against what a part is. The pool is a state machine over the steps of its threads, and its theorems
are about every schedule.

**Enrollment and session** (`Enrollment`, `Session`, `DevicePoll`). The X.509 and json5 libraries are any
functions, with the one assumption that a document reads back as it was written. A write of a file is
atomic and may fail or be the last thing the process does. Tokens carry the issuer and the client
they are of.

**Release checks** (`Elf`, `BuildState`). The reader is proved against the layout it inverts, the marker's
reader against its writer.

Where the code does less than its comments say, the code is modelled, an example shows the gap, and
the exact condition is proved:

- `split_diff` says it drops nothing. A file past the cap whose header is past the cap too is dropped,
  and one whose header has the cap's very length is an error of `range`. Nothing is lost exactly when
  there is no file of the first kind (`DiffSplit.SplitDiff`, `DiffSplit.PlainFileIsLost`, `DiffSplit.LossExample`).
- A publish that stopped is to be finished by running it again. Where the release commit holds the very
  notes file already there is nothing to commit once the release is live, so no re-run finishes. An attempt
  without a failed request ends with the release out exactly when the release is live already or no hub
  carries the tag elsewhere, and the notes are on `dev` already or differ from that file
  (`Publish.RunPublish`, `Publish.PublishWithReruns`, `Publish.SameNotesExample`).
- A build-state marker reads back as it was written exactly when no profile ends in a carriage return
  (`BuildStates.ReadsBackExactly`).
- A renewal says it writes only while the enrollment it started from is the one on disk. Its second look
  compares the document and the validity of the leaf, so a directory with another key or another leaf
  of the same dates passes (`Renewals.UntouchedExactlyWhenChanged`, `Renewals.ReplacedKeyExample`).
- A refresh persists its session wherever the file holds one, also one of another login
  (`Sessions.RefreshKeepsLoginExactly`, `Sessions.UndoneLoginExample`).
- The pool's comment says the failure of the first failing job is raised. It is the first of those that
  raised: a job before it that would fail can have been skipped. It is the first that would fail, under
  every schedule, exactly when no job after that one would fail (`JudgePool.FirstFailureExactly`,
  `JudgePool.SkippedFirstExample`).

## Model

| member | source | states |
|---|---|---|
| CommitGraph.AncestorTransitive | scripts/functions/repo.py:112-128 | the ancestor relation is transitive on every history |
| CommitGraph.AncestorAntisymmetric | scripts/functions/repo.py:112-128 | two commits that are ancestors of each other are the same commit |
| CommitGraph.AncestorsOfMerge | scripts/functions/repo.py:291-300 | the history of a merge commit is itself and both histories it joins, and the merge is in neither |
| ReleaseStores.TakenNotesAreAlone | scripts/functions/parallel_release.py:925-938 | fast-forwarded or merged, the notes commit is the one change to the notes file that `dev` took since the release commit |
| Prepare.VerifyReleaseBranchState | scripts/functions/release_line.py:63-94 | writes nothing, and passes exactly when HEAD is on `dev`, `dev` is where the remote has it and `main` is behind it |
| Prepare.RequireUnusedTag | scripts/functions/parallel_release.py:281-301 | passes exactly when the tag does not exist |
| Prepare.RunPrepare | scripts/functions/parallel_release.py:349-393 | writes nothing; success means the tag is unused, `main` is behind the plan's commit, and `dev` is that commit or has only taken merges since |
| Prepare.CanStartIsPrepared | scripts/functions/parallel_release.py:349-393 | a release that passed the stage meets the invariant a publish keeps, whatever the hubs carry |
| Prepare.MergesKeepPrepared | scripts/functions/release_line.py:123-146 | it stays prepared while others merge into `dev` |
| ReleaseStores.PreparedIsSafe | scripts/functions/parallel_release.py:281-301 | an unused tag with `main` behind the release commit meets the invariant, with drafts of earlier runs, hubs that carry the tag and an old notes file or without |
| ReleaseStores.StepKeepsSafe | scripts/functions/parallel_release.py:750-974 | every effect of a publish, and every merge of others, keeps the invariant: notes only after the live release, live only after every hub is tagged, at most one live release with exactly its archives, at most one notes commit |
| ReleaseStores.RunIsSafe | scripts/functions/parallel_release.py:977-1067 | the invariant holds in every state of every run |
| ReleaseStores.RunKeepsOrder | scripts/functions/parallel_release.py:771-796 | in every state of every run from an unused tag, a notes commit on `dev` means the release is live at the plan's commit, and a live release means every hub carries the tag at its recorded commit |
| ReleaseStores.RunMovesForward | scripts/functions/release_line.py:97-146 | over every run both branches only move forward, no tag of the repository or of a hub moves, and a live release stays as it is |
| ReleaseStores.RunKeepsHubsAgree | scripts/functions/release_hubs.py:158-193 | over every run no hub comes to carry the tag elsewhere, and one that did still does |
| ReleaseStores.MisplacedTagShipsNothing | scripts/functions/release_hubs.py:178-186 | with a hub that carries the tag at another commit, in every state of every run from an unused tag there is no release, no tag and no notes commit, and `main` has not moved |
| ReleaseStores.MainIsWhatShipped | scripts/functions/parallel_release.py:853-875 | `dev` always holds the release commit, and a `main` that moved has exactly the release commit's history and the notes commit, none of the merges `dev` took |
| ReleaseStores.LiveHolds | scripts/functions/parallel_release.py:704-737 | the live releases are exactly those of the tag that are no drafts |
| ReleaseStores.KeptHolds | scripts/functions/github.py:435-462 | what no edit of a draft touches is every release but the drafts of the tag, each as often as it is there |
| RemoteRequests.ApplyKeepsIdsUnique | scripts/functions/github.py:479-504 | every effect of a request, whole or cut short, leaves the ids of the releases unique |
| RemoteRequests.Remote.Send | scripts/functions/github.py:105-161 | a request takes effect in full, as a cut upload or not at all, a reply means the full effect, and one that got through is refused only where its effect is none |
| Tracking.Send | scripts/functions/parallel_release.py:977-1067 | a request all of whose effects are steps of a publish keeps the history a run |
| HubTagging.ReadHubTagCommit | scripts/functions/release_hubs.py:80-108 | returns the commit a hub's tag names through any depth of tag objects, none for a missing tag, and an error for a tag that names no commit |
| HubTagging.CreateHubTag | scripts/functions/release_hubs.py:111-137 | tags the hub at the recorded commit or changes nothing, and never moves a tag |
| HubTagging.ReadHubTags | scripts/functions/release_hubs.py:158-193 | reads every hub of the set as it is, and writes nothing |
| HubTagging.AnyMisplaced | scripts/functions/release_hubs.py:158-193 | finds a hub tagged at another commit exactly when there is one |
| HubTagging.TagReleaseHubs | scripts/functions/release_hubs.py:158-193 | with any hub tagged elsewhere no hub changes; otherwise, unless a request fails, every hub ends tagged at its commit; wherever it is cut off no tag moves and the hubs tagged only grow |
| DraftUpload.FindDraftReleases | scripts/functions/github.py:435-462 | paging finds the id of every draft of the tag, in order, and nothing else |
| DraftUpload.OwnDraftIdsHold | scripts/functions/github.py:435-462 | the ids found are exactly those of the drafts of the tag |
| DraftUpload.DeleteDraftRelease | scripts/functions/github.py:479-494 | deletes a draft and leaves a live release alone, also when a reply is lost; a draft is left only where a request failed |
| DraftUpload.DeleteOldDrafts | scripts/functions/parallel_release.py:630-655 | no draft of the tag is left |
| DraftUpload.CreateDraftRelease | scripts/functions/parallel_release.py:630-655 | the new draft is the only one of the tag, empty and at the plan's commit |
| DraftUpload.FreshDraftIsAlone | scripts/functions/parallel_release.py:630-655 | every draft of the tag is then the new one |
| DraftUpload.DeleteAssetIfExists | scripts/functions/github.py:395-417 | the asset is gone where the list shows it, and nothing else of the release changed |
| DraftUpload.AttemptUpload | scripts/functions/github.py:265-326 | a retry first deletes what the attempt before it left, and does not upload where that fails; it is refused only where an asset of the name is still there; another attempt is asked for exactly after a transient failure of the upload |
| DraftUpload.UploadAssetWithRetries | scripts/functions/github.py:265-326 | with partial uploads, lost replies and retries, whatever the release held before: success means the asset is there once and complete, assets of other names are never touched, and on a release without the name a failure leaves nothing, the asset or a part of it added; a transient failure ends it only after the last attempt or a failed cleanup; where the name is free and no request fails it succeeds |
| DraftUpload.ReplaceAndUploadAsset | scripts/functions/github.py:420-432 | success means the asset is there once and complete, in place of any asset of its name, and every other asset as it was; where no request fails it succeeds over an asset of the name that the list shows |
| DraftUpload.UploadArchives | scripts/functions/parallel_release.py:658-701 | success means the draft holds each archive exactly once, complete, and nothing else |
| DraftUpload.PublishingIsLegal | scripts/functions/github.py:497-504 | the publish request of a draft that holds its archives, with every hub tagged, has no effect but the release going live, and is not refused |
| DraftUpload.PublishDraft | scripts/functions/github.py:497-504 | is sent only for a draft that holds each archive once and complete; the release is live after success |
| DraftUpload.UploadArchivesAndPublish | scripts/functions/parallel_release.py:658-701 | the failure cleanup never deletes a release whose publish took effect, and where the process lives on the draft is left only if a request of the cleanup failed as well; without a failed request the release is live |
| Publish.UpdateReleaseBranch | scripts/functions/release_line.py:97-120 | moves the clone to the remote `dev` by fast-forward alone, and stops before any change otherwise |
| Publish.FindReleaseNotesCommit | scripts/functions/parallel_release.py:799-850 | finds the one notes commit, or none while the notes file is untouched, and stops in each other case with its own reason |
| Publish.CheckBranches | scripts/functions/release_line.py:123-146 | passes exactly when `dev` still holds the release commit, at most one notes commit is there and `main` can be fast-forwarded to it; it writes nothing |
| Publish.FindPublishedRelease | scripts/functions/parallel_release.py:704-737 | tells whether the release is live, and stops on a live release whose tag is not at the plan's commit |
| Publish.PublishReleaseUnlessPublished | scripts/functions/parallel_release.py:750-796 | a live release is left as it is; notes without a release, or a hub tagged elsewhere, stop it before any write; otherwise the release ends live |
| Publish.MergeBaseIsReleaseCommit | scripts/functions/parallel_release.py:925-938 | what `dev` and the notes commit share is the release commit's history |
| Publish.MergeOfNotes | scripts/functions/repo.py:291-300 | the merge changes the notes file of `dev` and no other file, and conflicts only when `dev` has a notes file of its own |
| Publish.PushMeansUnmoved | scripts/functions/repo.py:328-337 | a push of the merged notes that goes through finds `dev` where the merge found it |
| Publish.MergeIntoCurrentBranch | scripts/functions/repo.py:291-300 | brings the notes into the branch by fast-forward or merge, and keeps every other file |
| Publish.MergeReleaseNotesIntoDev | scripts/functions/parallel_release.py:925-938 | only `dev` changes, forward, and by no notes commit but this one; success means the notes commit is on it, and without a failed request or a notes file of `dev`'s own it succeeds |
| Publish.CommitReleaseNotes | scripts/functions/parallel_release.py:909-922 | makes a commit on the release commit that changes the notes file alone, and to the very text, exactly when the file does not hold it already |
| Publish.AlignMain | scripts/functions/parallel_release.py:941-974 | `main` ends at the notes commit or where it was; where `main` is behind the notes and no request fails it ends there |
| Publish.CommitNotesAndAlignMain | scripts/functions/parallel_release.py:941-974 | an earlier attempt's notes commit is reused; on success `main` is at the notes commit that is on `dev`; a notes commit that is new on `dev` holds the text |
| Publish.RunPublish | scripts/functions/parallel_release.py:977-1067 | whatever fails, the stores took only steps of a publish; a failed branch check writes nothing; from an unused tag an attempt without a failed request ends with the release out exactly when the release is live or no hub is tagged elsewhere, and the notes are on `dev` or differ from what the release commit holds; a notes commit that is new on `dev` holds the text of the attempt, and so does `main` after success; an attempt after that changes nothing |
| Publish.PublishWithReruns | scripts/functions/parallel_release.py:977-1067 | after any number of attempts cut off anywhere, with `dev` growing, one attempt without a failed request and with notes to commit ends with the release live at the plan's commit, every hub tagged, exactly one notes commit on `dev` and `main` at it with the text of one of the attempts, and it stays so; with a hub tagged elsewhere at the start, or notes to commit in no attempt, it never is |
| Publish.SameNotesExample | scripts/functions/parallel_release.py:909-922 | a concrete release whose commit holds the very notes, which no number of attempts finishes |
| SignedBytes.SignedBytes | crates/auth-internal/src/machine_proof.rs:525-533 | the loop builds context, then each field after its 64-bit length, then the key |
| SignedBytes.BigEndianValue | crates/auth-internal/src/machine_proof.rs:525-533 | the bytes of a length stand for it, the first weighing most |
| SignedBytes.ContextsAreText | crates/auth-internal/src/machine_proof.rs:44-48 | the two contexts are the bytes of their texts |
| SignedBytes.MessageInjective | crates/auth-internal/src/machine_proof.rs:525-533 | equal signed bytes of one context have equal fields, equally many, and equal keys, whatever the fields hold |
| SignedBytes.ContextsSeparate | crates/auth-internal/src/machine_proof.rs:44-48 | no boot statement's bytes are an endorsement's |
| MachineProofs.BootSignatureTells | crates/auth-internal/src/machine_proof.rs:489-495 | a signature that verifies over a boot statement was made for exactly that statement |
| MachineProofs.EndorsementSignatureTells | crates/auth-internal/src/machine_proof.rs:510-521 | a signature that verifies over an endorsement was made for exactly that endorsement under that boot |
| MachineProofs.Agreement | crates/auth-internal/src/machine_proof.rs:162-208 | in every run, an accepted key was bound to exactly the claimed namespace, core node and instance id under an accepted chain, as the boot key or by an endorsement of that same boot |
| MachineProofs.AcceptsExactly | crates/auth-internal/src/machine_proof.rs:162-208 | a key is accepted exactly when the CA takes the chain for the core node, the machine of the leaf made that boot with the algorithm stated, and the key is the boot's under the boot's id or endorsed by that boot for the sender's |
| MachineProofs.RefusalTells | crates/auth-internal/src/machine_proof.rs:162-208 | each refusal means the fault it names |
| MachineProofs.DaemonProofAccepted | crates/auth-internal/src/machine_proof.rs:316-362 | a daemon's proof is accepted for its own sender exactly when the CA takes the chain |
| MachineProofs.ClientProofAccepted | crates/auth-internal/src/machine_proof.rs:366-385 | a client's proof proves the client's key exactly when the CA takes the chain and the client's id is not the boot's; with that id the boot key is proven instead |
| Text.FirstLineEnds | scripts/functions/docs.py:383-400 | a line ends at its first line break, a carriage return with the newline after it |
| DiffSplit.HeadersExactly | scripts/functions/docs.py:108-108 | a file starts at a place exactly when that is the start of a line the header pattern matches, with the path the line names |
| DiffSplit.HeadersInOrder | scripts/functions/docs.py:355-367 | the headers are found in the order of the diff, each once |
| DiffSplit.NewSideIsFirst | scripts/functions/docs.py:108-108 | the path is what follows the first place where the new side opens, in quotes or not |
| DiffSplit.HeaderLineNames | scripts/functions/docs.py:108-108 | the header line of a path names it |
| DiffSplit.QuotedHeaderLineNames | scripts/functions/docs.py:108-108 | so does the header line of a path in quotes |
| DiffSplit.FileSections | scripts/functions/docs.py:355-367 | one section per header, in order, which together are the diff; an error exactly when the diff does not open with a header |
| DiffSplit.BodyStartsAtHunk | scripts/functions/docs.py:370-400 | the body starts at the first hunk line, and at the end where there is none |
| DiffSplit.SlicesOfLine | scripts/functions/docs.py:383-400 | the slices of a line past the budget are the line, each but the last of the budget's very length |
| DiffSplit.CutLines | scripts/functions/docs.py:383-400 | the bodies hold all the lines in order, each within the budget, cut between lines or within a line past the budget, and no line is put off to the next body that still fits |
| DiffSplit.CutSection | scripts/functions/docs.py:370-400 | every piece starts with the header and the pieces hold the whole body when the header is shorter than the cap; the two failing cases exactly |
| DiffSplit.SplitSections | scripts/functions/docs.py:410-433 | every part is within the cap; files under the cap are whole, in order, as many to a part as fit; files past it are in pieces under their header; an error exactly when a file past the cap has a header of its length |
| DiffSplit.SplitDiff | scripts/functions/docs.py:410-433 | the parts, repeated headers left out, are the diff exactly when no file past the cap has a header past it; an error exactly when one has a header of the cap's length |
| DiffSplit.NoHunkIsLost | scripts/functions/docs.py:370-400 | every file past the cap without a hunk is lost |
| DiffSplit.PlainFileIsLost | scripts/functions/docs.py:370-400 | the diff of a file without a hunk, of any path that needs no quotes, is one lost file under every cap shorter than it |
| DiffSplit.PartsAreOfKept | scripts/functions/docs.py:410-433 | there are parts only where there is a file that is not lost |
| DiffSplit.SplitLostFile | scripts/functions/docs.py:410-433 | splitting a diff of one lost file gives no part and no error |
| DiffSplit.LossExample | scripts/functions/docs.py:410-433 | one concrete diff and cap for which splitting gives no part |
| JudgePool.ScheduleFits | scripts/functions/docs.py:802-827 | under every schedule at most four jobs are under way, jobs are taken in order, and the flag is set exactly by jobs that raised |
| JudgePool.FlagStopsStarts | scripts/functions/docs.py:802-827 | once the flag is set no job starts that had not, however the schedule goes on |
| JudgePool.ScheduleIsBounded | scripts/functions/docs.py:802-827 | every schedule ends, within six steps a job |
| JudgePool.NeverStuck | scripts/functions/docs.py:802-827 | until the pool is shut down some thread can move |
| JudgePool.ResultsInJobOrder | scripts/functions/docs.py:802-827 | with no job that raises, every schedule gives the results in job order, one for each job that gives one |
| JudgePool.GivenAppends | scripts/functions/docs.py:802-827 | what jobs one after the other give is given in their order |
| JudgePool.FirstFailureIsRaised | scripts/functions/docs.py:802-827 | with a job that raises, every schedule ends in the error of the lowest-numbered job that raised; a job before it that would raise was skipped |
| JudgePool.FirstFailureExactly | scripts/functions/docs.py:802-827 | under every schedule the failure raised is that of the first job that would fail, exactly when no job after it would fail |
| JudgePool.FirstCanBeSkipped | scripts/functions/docs.py:802-827 | for all jobs with a second one that would fail, a schedule in which the first is skipped and the second raised |
| JudgePool.SkippedFirstExample | scripts/functions/docs.py:802-827 | a schedule in which a lower-numbered job that would raise is skipped |
| GapReviews.DistinctBlocking | scripts/functions/docs.py:877-879 | each blocking gap once and nothing else |
| GapReviews.DistinctInOrder | scripts/functions/docs.py:877-879 | the gaps stand in the order of their first appearance |
| GapReviews.StandingKeeps | scripts/functions/docs.py:866-899 | every change but a refuted blocking gap stands, as often as it was there, and no refuted one |
| GapReviews.StandingAppends | scripts/functions/docs.py:866-899 | in the order of the changes |
| GapReviews.ConfirmBlocking | scripts/functions/docs.py:866-899 | under every schedule of the reviews, returns the changes in order less exactly the blocking gaps that their own review refutes, and fails exactly when a review fails |
| EmDashes.KeyTells | scripts/functions/docs.py:713-729 | lines are matched by file and text, whatever their number |
| EmDashes.SurplusIsDifference | scripts/functions/docs.py:713-729 | the lines past the ones before, counted by file and text, are the multiset difference |
| EmDashes.AddedEmDashLines | scripts/functions/docs.py:713-729 | exactly the multiset difference by file and text, in order, and empty exactly when after is contained in before |
| EmDashes.PureMoveAddsNone | scripts/functions/docs.py:713-729 | a pure move of lines adds none |
| Enrollments.LoadsExactly | crates/auth-internal/src/enrollment.rs:318-348 | nothing loads without a document; with one it loads exactly when the version is right, the leaf is a certificate and all four PEM files are there |
| Enrollments.IdentityTells | crates/auth-internal/src/enrollment.rs:424-460 | the identity is the namespace and, when enrolled, the router id, and no more |
| Enrollments.ForRenewal | crates/auth-internal/src/enrollment.rs:269-300 | an answer is accepted exactly when it is for the same peer, zenoh id, namespace and router and its leaf is a certificate; the document differs in the name at most, and the name and every file are the answer's |
| Enrollments.PeerDir.Publish | crates/auth-internal/src/document.rs:67-76 | a file is replaced as a whole or not at all |
| Enrollments.PublishAll | crates/auth-internal/src/enrollment.rs:393-403 | a write that stops leaves exactly the files of its first steps |
| Enrollments.Save | crates/auth-internal/src/enrollment.rs:359-373 | the key is written first and the document last |
| Enrollments.SaveRenewal | crates/auth-internal/src/enrollment.rs:378-389 | without a key on disk nothing is written; otherwise the issued files, the document last |
| Enrollments.Remove | crates/auth-internal/src/enrollment.rs:407-413 | success leaves no file, a failure leaves only files that were there |
| Enrollments.AfterIssued | crates/auth-internal/src/enrollment.rs:393-403 | what each file holds after any number of the writes: leaf, trust anchor, chain, config and document in this order, and the key as it was |
| Enrollments.RenewalCrashPoints | crates/auth-internal/src/enrollment.rs:393-403 | at every crash point of a renewal the enrollment loads, with the same identity and key and the old or the new leaf; at the end with the new document |
| Enrollments.SaveCrashPoints | crates/auth-internal/src/enrollment.rs:350-373 | a crash point of an enrollment reads as not enrolled exactly when it is before the end and no document was there before; done, it loads as the bundle, with every file of it in place |
| Renewals.RenewWith | crates/auth-internal/src/renewal.rs:44-68 | not enrolled asks nobody; a refusal, an answer for another peer or a changed enrollment leaves the files as others left them; success is what loads afterwards, with every file of the answer in place under the old key; succeeds exactly when nothing stood in the way |
| Renewals.LeavesKeeps | crates/auth-internal/src/renewal.rs:44-68 | wherever a renewal is cut off, the identity and the key it found are those it leaves |
| Renewals.OnlyOthersChangeIdentity | crates/auth-internal/src/renewal.rs:44-68 | at every point of every run with enroll and unenroll in between, identity and key are those the last of the others left, over any number of renewals since, each cut off anywhere |
| Renewals.RenewalsKeepEnrollment | crates/auth-internal/src/enrollment.rs:424-460 | over every run of renewals cut off anywhere the machine stays enrolled under the same identity and key |
| Renewals.UntouchedExactlyWhenChanged | crates/auth-internal/src/renewal.rs:52-61 | what others left is safe from every answer of the platform exactly when it no longer loads as before |
| Renewals.ReplacedKeyExample | crates/auth-internal/src/renewal.rs:52-61 | a replaced key alone is not noticed |
| Tokens.SaturatingAddIsNearest | crates/auth-internal/src/device.rs:165-178 | the expiry is the sum, or the 64-bit number nearest to it |
| Tokens.IntoSet | crates/auth-internal/src/device.rs:165-178 | the access token, type, scope and expiry of the answer; the rotated refresh token, or the previous one when the answer holds none or an empty one: never empty when the previous was not |
| Sessions.Refreshed | crates/auth-internal/src/resolver.rs:123-132 | a refreshed session has the access token, expiry, type and scope of the answer, the rotated refresh token or its own, and keeps its login, its platform, its user and its binding |
| Sessions.HistoryIsBound | crates/auth-internal/src/resolver.rs:99-119 | in every interleaving of logins, logouts and refreshes the file holds only tokens of the issuer and client it names |
| Sessions.RefreshKeepsToken | crates/auth-internal/src/resolver.rs:99-119 | no refresh turns a non-empty refresh token empty, whatever became of the file since it read the session |
| Sessions.HistoryHasOrigin | crates/auth-internal/src/resolver.rs:99-119 | in every interleaving the session on file is that of the start or of a login, of its issuer and client, and has a refresh token if that had one |
| Sessions.RemovedStaysRemoved | crates/auth-internal/src/resolver.rs:99-119 | in every interleaving only a login brings a removed session back |
| Sessions.RefreshKeepsLoginExactly | crates/auth-internal/src/resolver.rs:112-118 | a refresh leaves the login on file in place exactly when it read a session of that login |
| Sessions.UndoneLoginExample | crates/auth-internal/src/resolver.rs:112-118 | a refresh of one login undoes a login at another platform made meanwhile |
| Sessions.CredentialsFile.Persist | crates/auth-internal/src/resolver.rs:112-118 | looks again at what others have left, saves exactly over a session that is there then, and leaves the file otherwise |
| Sessions.RefreshAndPersist | crates/auth-internal/src/resolver.rs:99-119 | no grant where the issuer's endpoint is not discovered, and otherwise one, at the session's own issuer; the session returned and the file it leaves |
| Sessions.ResolveSession | crates/auth-internal/src/resolver.rs:58-74 | an unexpired session's access token is used as it is, an expired one after one refresh, and then it is the answer's; the bearer is of that session's login |
| Sessions.CredentialFor | crates/auth-internal/src/renewal.rs:82-100 | a bearer only of a session of the platform the machine is enrolled at, and no request otherwise |
| Sessions.PlatformApi.RefreshInPlace | crates/auth-internal/src/client.rs:511-525 | refreshes exactly when the file holds a session of the same issuer and client, and the bearer is then the answer's access token; it leaves the bearer as it is otherwise |
| Sessions.PlatformApi.Authed | crates/auth-internal/src/client.rs:415-425 | at most two requests and one refresh, whatever others do to the file; every bearer sent is of the issuer and client it was built with; a second request only after a 401, with the access token of the refresh where there was one |
| DevicePolls.PacedTimes | crates/auth-internal/src/device.rs:246-283 | the k-th poll is at least k initial intervals after the first |
| DevicePolls.PollsAreBounded | crates/auth-internal/src/device.rs:246-283 | while the time is not up the polls are at most lifetime over interval, and one |
| DevicePolls.Poll | crates/auth-internal/src/device.rs:246-283 | after section 3.5 of RFC 8628: polls at least max(interval, 1) and five seconds for each slow_down apart, saturating; no poll after a fatal code; at most lifetime over interval and two polls; ends, with the result of the last answer, code by code, and times out only once the lifetime is over |
| DocsBase.ShippedIsOnTheLine | scripts/functions/release_docs_gate.py:63-97 | the latest tag exactly where it lies between `main` and the release commit, `main` otherwise |
| DocsBase.JudgedIsVouched | scripts/functions/release_docs_gate.py:114-142 | the guard chain accepts exactly the merged docs-sync pull requests that vouch for a commit on the line |
| DocsBase.LatestGrows | scripts/functions/release_docs_gate.py:145-173 | one pass keeps a commit no vouched commit strictly descends from, although commits may be unrelated |
| DocsBase.LastJudgedCommit | scripts/functions/release_docs_gate.py:145-173 | returns a maximal vouched commit with the URL of a pull request that vouches for it, and none exactly when there is none |
| DocsBase.DocsCheckBase | scripts/functions/release_docs_gate.py:176-193 | the base lies between `main` and the release commit, at or past the last shipped commit, and is a maximal vouched commit if there is one |
| LittleEndian.UnpackPack | scripts/functions/verify_release.py:48-54 | unpacking what was packed gives the numbers back, for every struct |
| LittleEndian.LastWeighsMost | scripts/functions/verify_release.py:48-54 | the last byte of a number weighs most |
| LittleEndian.UnpackAt | scripts/functions/verify_release.py:48-54 | each number of a struct is read at its offset and width |
| ElfFiles.Stream.Read | scripts/functions/verify_release.py:80-84 | a forward read of what is left |
| ElfFiles.ReadFormat | scripts/functions/verify_release.py:87-151 | forward reads alone give what the file holds at the offsets of its header, errors included |
| ElfFiles.ReadElf | scripts/functions/verify_release.py:87-151 | the same for the ELF64 format |
| ElfFiles.Elf64HasOffsets | scripts/functions/verify_release.py:48-54 | the offset and width of each field that is read |
| ElfFiles.HeaderOffsets | scripts/functions/verify_release.py:87-151 | the bytes of the header that the machine, the table's offset, the entry size and the count are read from |
| ElfFiles.EntryOffsets | scripts/functions/verify_release.py:87-151 | the bytes of an entry that its type, offset, address and alignment are read from |
| ElfFiles.ContentsOfLayout | scripts/functions/verify_release.py:87-151 | for every header, gap, program header table and rest, the machine and exactly the PT_LOAD entries, in order |
| ElfFiles.PageSizeProblem | scripts/functions/verify_release.py:154-173 | none exactly when every segment is aligned to 16 KiB or more and rounding its address and offset down to pages keeps their distance; otherwise the first segment for which that fails |
| ElfFiles.SamePositionMeansMapped | scripts/functions/verify_release.py:154-173 | the remainder test is the same position in a page, and is when rounding down keeps the distance |
| BuildStates.LinesOfText | crates/generator-internal/build.rs:631-646 | any text is read line by line, less a carriage return before a newline |
| BuildStates.ParsesExactly | crates/generator-internal/build.rs:631-646 | a line is a record exactly when it has three fields between tabs or more, and it is that of the first three |
| BuildStates.LastRecordIsRead | crates/generator-internal/build.rs:631-646 | of the records of a platform the last is read, and lines that are none are passed over |
| BuildStates.NoRecordIsRead | crates/generator-internal/build.rs:631-646 | a platform without a record is not read |
| BuildStates.ReadOfMarker | crates/generator-internal/build.rs:631-655 | reading a marker of strings without tab and newline gives the state it was written from, but for a carriage return at the end of a profile |
| BuildStates.ReadsBackExactly | crates/generator-internal/build.rs:631-655 | it gives back that very state exactly when no profile ends in a carriage return |
| BuildStates.BuildStateRecords | crates/generator-internal/src/generator/python/scaffold.rs:37-58 | finds the line exactly when it stands at the start of a line |
| BuildStates.MarkerRecordsExactly | crates/generator-internal/build.rs:804-823 | a provenance line is recorded exactly while the platform is, with that hash and that profile |
| BuildStates.EmbeddedHolds | crates/generator-internal/build.rs:804-823 | the bindings embedded are exactly those that are not excluded |
| BuildStates.EmbeddedAppends | crates/generator-internal/build.rs:804-823 | in the order of the files |
| BuildStates.Provenance | crates/generator-internal/build.rs:804-823 | one line for each binding that is not excluded, in the order of the files, and a failure exactly when one has no recorded state |
| BuildStates.VerifyPrebuiltSo | crates/generator-internal/build.rs:867-899 | passes exactly when there are bindings and each is recorded as built from the current sources |
| BuildStates.VerifiedIsRecorded | crates/generator-internal/build.rs:867-899 | against the marker the producing build wrote, a binding that passes was built from the current sources and its provenance line is a line of the marker |
| BuildStates.CheckEmbedded | crates/generator-internal/build.rs:836-853 | the check of a later build passes exactly when every embedded binding is recorded with the pair it was built from |

## Left out

- Publish.RunPublish: the archive staging, the hub check and the install check are steps that may fail; what they look at is not modelled, because it is files and processes of the machine.
- Publish.MergeOfNotes: a merge is decided file by file; a merge inside one file, which git can also do, is a conflict here. The notes file is the only one both sides could have changed.
- DraftUpload.DeleteAssetIfExists: the list of assets shows its first page of thirty; an asset past it is not deleted, as in the source.
- MachineProofs.Agreement: X.509 chain validation, key parsing, base64 and the signature algorithms are idealised; the decoding of the proof is a given.
- Enrollments.Remove: in which order a directory's files are removed is not specified; any subset may be left.
- Renewals.RenewWith: others may interfere until the second look; the second look and the write after it are taken as one step.
- Sessions.CredentialsFile.Persist: the re-read and the save are taken as one step.
- Sessions.ResolveSession: the 64-bit overflow of the clock plus thirty seconds is not modelled.
- DevicePolls.Poll: an OAuth error code is taken as already extracted from the body.
- DocsBase.ShippedIsOnTheLine: a tag the clone cannot resolve, which is an error of git, is not modelled.
- BuildStates.BuildStateRecords: compares characters where the source compares the bytes of the same UTF-8 text.
- The subprocess, HTTP, console, tar, Docker, Lima and cargo plumbing: input and output without a decision to prove.
- The prompts, response schemas and texts of the release notes: string templates.
- The launchers' dispatch and wait loops, the pull requests of the docs gate, the archive member checks: they would only add easy members.
- URL transport policy, user-code shape, peer-name rules, problem documents, mount expansion, error messages: short case splits.
- The registration of core-node services and the daemon interface table: wiring whose protocols live elsewhere.
