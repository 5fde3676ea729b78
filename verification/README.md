# A verified model of credkit

credkit keeps credentials on disk and in the operating system's keychain: a
rooted file store that survives crashes and hostile renames, a token ledger, a
rotation protocol on top of both, an audit log, profiles, cached sessions and a
macOS keychain adapter. This project models that code in Dafny and proves the
properties it exists for. `dafny verify dfyconfig.toml` checks all of it.

## How the model is built

* **Layer 1, system calls.** `Filesystem` is an inode table with nine-bit modes:
  directories map names to inodes, files hold bytes, symlinks and special files
  are told apart. `Host.Machine` is one process's view of it: each call is one
  atomic step, may fail for no visible reason (`faults` counts those), and is
  preceded by whatever other processes do unless the machine is `alone`. After
  each change the sequence `trail` gains the state a crash at that instant would
  leave.
* **Layer 2, the rooted store.** `Rooted`, `StagedWrite` and `AbsoluteStore` are
  `store/root.go`, `store/permissions_other.go` and `store/store.go`, branch by
  branch. Each contract has two halves: what holds under any interference (the
  identity of every handle), and what the call computes when undisturbed, stated
  by the loop-free functions of `StoreSpec` and the crash relation of
  `Replacement`. `Names` and `NamedStore` restate it for all names at once;
  `Listing` is the order of directory listings.
* **Layer 3, many calls at once.** `Protocol` is the automaton of system calls
  one store call may make; the imperative code drives it, and `Interleaving`
  steps any number of such automata in any order. `LedgerThreads` puts the
  ledger's lock and read-modify-write cycles on top of those same steps, and
  `RotationThreads` puts rotations on top of those. What ties them to the
  imperative code is shared: `LedgerSteps.Decide` is what both kinds of ledger
  call go by, and `RotationStages.Follow` is the course that `Rotation`'s journals
  follow and that drives each rotation thread.
* **Layer 4, what is built on the store.** `Ledger`, `Tokens` and
  `LedgerHistory`; `Rotation` with its rules in `RotationRules`; `Audit`,
  `AuditLines` and `AuditLog`; `Profile`; `Session`. The crash theorem of
  `Rotation.Rotate` reaches from a provider request down to single system calls.
* **Beside it**, `Base64`, `Quoting`, `Text`, `Keychain` and `KeychainStore` model
  `secret/secret.go`, and `WindowsAcl` models `store/permissions_windows.go`.

## Assumptions

* A rename within a directory happens at once or not at all; inode numbers are
  not reused and an inode keeps its kind; others may do anything else. Opening
  through a symlink is allowed to reach any inode at all.
* A staging name that `rand.Text` yields has not been used by another call, and
  callers do not ask for destinations with the staging prefix. Should a staging
  name exist all the same, the exclusive creation fails, and the model says so.
* No directory has two entries and none lies below itself, where different names
  are to be different files.
* JSON is a partial codec: whatever encodes decodes to itself, except that an
  empty scope becomes none. Foreign bytes may decode to anything or not at all.
  An encoded audit record is one line that does not end in a carriage return.
* A legacy password's characters are taken modulo 256, so in `Keychain` text is
  single bytes; UTF-8 is not decoded or encoded there.
* The clock does not go back; strings are valid text and encode injectively.
* Denied access by mode, a full disk and the like are calls that fail for no
  reason the model shows. A failing read or write may have done part of its work.
* The audit log is a different file from the ledger; logging during a rotation
  is one step that may fail. Audit appends are not among the store calls that
  `Interleaving` runs beside each other; `AuditLog` has them on their own.
* An absolute path is given as its directory and its last element.
* `security -i` reads one command per line, honours double quotes, single quotes
  and backslashes, and either reading of text behind a closing quote is covered;
  a metadata report has one line per attribute, hexadecimal when unprintable.

## Notes on the code

* `filepath.Dir` and `filepath.Base` disagree on a trailing separator, so a name
  such as `a/` is stored as `a/a` (`Names.TrailingSeparator`). The model follows
  the code; which names come down to their cleaned form is stated exactly
  (`Names.TargetIsClean`).
* A log write that fails part-way leaves an unfinished line, and the next record
  is glued to it (`AuditLines.GluedLine`). The round trip therefore asks for
  complete lines to start from (`AuditLines.OwnLineIff`), and two records within
  the bound can make a line no query gets past (`AuditLog.FailedLogGlues`).
* The whole-second expiry rule is stricter than the precise one for positive
  TTLs with a fraction, and only for those (`Session.RulesAgree`); before creation
  a negative TTL below a second makes it the laxer one (`Session.BeforeCreation`).

## Model

| member | source | states |
|---|---|---|
| Rooted.SecurePermissions | store/permissions_other.go:9-21 | Reading accepts a mode exactly when it has no bit outside the permitted ones and changes nothing; writing leaves exactly the permitted mode, by at most one chmod |
| Filesystem.PrivateMeans | store/permissions_other.go:10-20 | For every mode: private means no bit for group and others, and for files no right to run |
| Rooted.SecureDirectory | store/root.go:65-79 | Passes only the directory that was expected; when reading, only one whose examined mode was private; when writing, leaves 0700; under any interference its only change is a chmod of the directory it passes |
| Rooted.FindOrMake | store/root.go:37-46 | Whatever others do, an answer is what the name led to at the last Lstat; undisturbed it fails only for a missing name that was not to be made; all it ever makes is that name in that directory |
| Rooted.EnterDirectory | store/root.go:37-60 | A handle it returns is the inode Lstat saw as a real directory under that very name; undisturbed it is what one step of the reading specification gives, whether or not directories are made; all it ever changes is that name made in that directory and the mode of the directory it returns |
| Rooted.WalkStep | store/root.go:33-61 | One turn of the walk extends the chain of vetted handles by one and agrees with the specification of the path so far |
| Rooted.WalkDown | store/root.go:33-61 | Under arbitrary renames and replacements by others, every handle in the loop is the inode Lstat saw as a real directory under the handle before it; undisturbed the result is the directory the whole path names, or the first error on the way; whether it gets there or fails, all it made are elements of the path, each in the vetted handle it had reached, and all it chmod-ed are vetted handles |
| Rooted.OpenDirectory | store/root.go:20-63 | The same from the root on, with the root itself examined; a name that is empty, absolute or on its way has more ".." than ordinary elements is refused with nothing done |
| Rooted.OpenParent | store/root.go:81-87 | Refuses names that leave the root; otherwise the walk to the cleaned parent and the last element; a name that is empty, absolute or on its way has more ".." than ordinary elements is refused with nothing done |
| Rooted.OpenSighted | store/root.go:154-174 | A handle on an existing name is the inode Lstat saw there, or the call fails; a symlink put in its place is never accepted; a reader only gets a file whose examined mode was private; on failure nothing was changed, so no file but the sighted one is ever chmod-ed |
| Rooted.CreateManaged | store/root.go:149-174 | A file that was absent is made exclusively by this very call, or the call fails |
| Rooted.OpenManagedFile | store/root.go:145-177 | Within two attempts: the handle is the regular file Lstat saw under that name or one this call created exclusively there; for readers it changes nothing and undisturbed equals the specification; undisturbed, for appenders, the content of the name is as it was, also on failure; under any interference all it makes is that name, and all it chmod-s is the file it returns |
| Rooted.ReadAll | store/root.go:192-196 | However the reads are cut up, the bytes are the ones the reader protocol collected, and undisturbed the whole file |
| Rooted.ReadSecureAt | store/root.go:181-197 | No inode, entry or mode changes; under any interference a success means every directory on the path was vetted and examined without a bit outside 0700, the file was seen by Lstat as a regular one under that name and examined without a bit outside 0600, and the bytes are those the reading protocol ended with; undisturbed the result is exactly ReadSpec; a name that is empty, absolute or on its way has more ".." than ordinary elements is refused with nothing done |
| Rooted.ExistsSecureAt | store/root.go:226-237 | Nothing changes; under any interference "exists" means the directories on the path were vetted and private and the file was seen and examined private; undisturbed it holds exactly when a read would succeed; a name that is empty, absolute or on its way has more ".." than ordinary elements is refused with nothing done |
| Rooted.ReadDirSecureAt | store/root.go:215-222 | Nothing changes; under any interference a success is the listing, every name once and sorted, of a directory whose path was vetted and private; undisturbed of the directory the path comes down to, with the same errors as a read; a name that is empty, absolute or on its way has more ".." than ordinary elements is refused with nothing done |
| Listing.InOrder | store/root.go:215-222 | The names of a directory, each exactly once, in ascending string order |
| Listing.ListingUnique | store/root.go:215-222 | A set of names has only one such listing |
| Listing.LessMeans | store/root.go:215-222 | The order: two names agree up to a point where the first ends or has the smaller character |
| Rooted.RemoveSecureAt | store/root.go:201-211 | Its only possible effect, under any interference, is to unlink the one entry the last element names in the directory that the vetted, private path ends in, seen by Lstat as a regular file; no mode changes; undisturbed it computes RemovalSpec, and failing changes nothing; a name that is empty, absolute or on its way has more ".." than ordinary elements is refused with nothing done |
| StagedWrite.StageBytes | store/root.go:128-130 | Whatever sizes the writes take, the staged file holds exactly a prefix of the data at every moment and all of it at the end |
| StagedWrite.FillStaged | store/root.go:121-136 | The staged file is private before its first byte, complete and sealed on success, a part of the data otherwise |
| StagedWrite.CleanUp | store/root.go:119-120 | On a failing path the deferred removal takes the staging name away, unless that very removal fails |
| StagedWrite.Promote | store/root.go:137-140 | The rename puts the complete private file in place in one step and leaves no staging name |
| StagedWrite.ReplaceEntry | store/root.go:114-141 | From the free destination on: success delivers the data, failure leaves the destination entry as it was, and every moment between is a point of that write |
| StagedWrite.WriteInto | store/root.go:111-141 | The same including the inspection of the destination, in terms of the name: after success a read of the name gives the data |
| StagedWrite.WriteSecureAt | store/root.go:105-141 | Every handle was vetted; at every moment the store is the old one with at most directories added or made private, one owner-only staging file and the old or the complete new destination, and what is new lies where the name leads; success means a read gives the data; failure keeps the destination and every other file, and leaves no new file if at most one call broke; without broken calls it fails only for a stated obstacle; and under any interference everything it did, failing or not, is the walk along vetted handles and then calls on one staging file it made itself in the last of them, the rename included; a name that is empty, absolute or on its way has more ".." than ordinary elements is refused with nothing done |
| Replacement.RenameLands | store/root.go:137-139 | Renaming the sealed staging file is possible and yields the store with the destination replaced and nothing staged |
| Replacement.StagingInFlight | store/root.go:114-136 | Every state with a staging file is a legal crash state: old destination, one private part of the data, nothing else new |
| Replacement.LandedInFlight | store/root.go:137-140 | So is the state after the rename: the complete new value under 0600, nothing staged |
| Replacement.SweptInFlight | store/root.go:119-120 | So is the state after an abandoned write: no new file at all |
| Replacement.LandedReads | store/root.go:137-140 | What was renamed into place is what a reader of that name then gets, for every path depth |
| StoreSpec.PreparedTransitive | store/root.go:20-24 | Making and repairing directories, any number of times, touches no file, symlink or existing entry |
| StoreSpec.DirectoryKept | store/root.go:33-62 | A path that could be walked stays walkable to the same directory as long as directories stay and stay private |
| Filesystem.ApplyKeeps | store/root.go:105-237 | Every system call the store makes keeps the inode table closed and every inode of its kind |
| Paths.ParentIsLocal | store/root.go:81-87 | The parent of a local name is itself local and cleaned, so opening it never leaves the root |
| Paths.CleanCounts | store/root.go:17-17 | Cleaning fails exactly for names some prefix of which has more ".." than ordinary elements, and otherwise leaves as many elements as the name leads down |
| Paths.LocalMeans | store/root.go:82-84 | A name is local exactly when it is not empty, not absolute and never climbs above its start |
| Paths.CleanDrops | store/root.go:33-36 | An empty element or a "." anywhere in a name changes nothing |
| Paths.CleanTakesBack | store/root.go:33-36 | An ordinary element with ".." right behind it changes nothing either, anywhere in a name |
| Paths.ParentsMean | store/root.go:85-85 | What a local name is below is what cleaning leaves of all but its last element |
| Paths.BaseMeans | store/root.go:86-86 | The last element is the last one that is not empty |
| StoreSpec.DirectoryMeans | store/root.go:33-62 | A path can be read down exactly when there is a way of inodes from the root, each an entry of the one before it and each a directory without a bit for group or others |
| StoreSpec.ReadMeans | store/root.go:181-197 | A read returns these bytes exactly when the name is local and the directory it is below holds, under its last element, a regular file with them and without a bit for group, others or running |
| StoreSpec.RemovalMeans | store/root.go:201-211 | A removal has something to take exactly when there is a regular file there, whatever its own mode |
| StagedWrite.ObstacleMeans | store/root.go:105-114 | Nothing is in the way of a write exactly when the directories are there and private, and the name is ordinary and leads to a regular file or nothing |
| Names.TargetIsClean | store/root.go:81-87 | A local name comes down to its cleaned form if and only if it ends in an ordinary element |
| Names.TrailingSeparator | store/root.go:85-86 | For every such name: behind a trailing separator the cleaned form is the same, but the file is another one, because the last element is taken twice |
| Names.CallKeepsTree | store/root.go:105-237 | Every system call of the store keeps the directories a tree |
| Names.WriteKeepsPlanted | store/root.go:105-141 | At every moment of a write, a crash included, the directories are still a tree below the root, also where the root was only just made |
| Names.ReachInjective | store/root.go:33-61 | In a tree, where no directory has two entries and no path from the root leads back to it, no two paths lead to one directory |
| Names.OldOrNew | store/root.go:105-141 | At any moment of a write, and after a crash there, its own name leads to the old bytes or to all of the new ones |
| Names.OtherNamesKeep | store/root.go:105-141 | At any such moment every name with another target (directories and last element) leads to exactly what it led to, or still to nothing |
| Names.DifferentNamesKeep | store/root.go:105-141 | So does every name with another cleaned form, when both names end in an ordinary element |
| Names.ReadableKeeps | store/root.go:105-141 | What was readable stays readable, as the old bytes or the new |
| Names.OthersRead | store/root.go:181-197 | Every file under another target that was readable before reads exactly the same bytes, whether the write succeeded, failed or was cut off |
| Names.RemovedOthers | store/root.go:201-211 | A removal changes nothing under any other target |
| NamedStore.WriteNamed | store/root.go:105-141 | The write in terms of all names of a store: at every moment its own name is old or new, every other target holds what it held, and the directories are a tree again; success means new and failure old; every other readable name reads the same; without broken calls it fails only for an obstacle in the way or a leftover staging name |
| NamedStore.RemoveNamed | store/root.go:201-211 | The removal in terms of all names: one step, only its own name is emptied and the directories stay a tree; "not found" means nothing was there; without broken calls it succeeds exactly when the name is a regular file behind private directories |
| AbsoluteStore.EnsureDir | store/store.go:45-60 | Succeeds, undisturbed and unbroken, exactly when the path is or becomes a real directory; then it is no symlink and 0700 |
| AbsoluteStore.WriteSecure | store/store.go:67-73 | At every moment the path holds its old content or all of the new; success means the new and that a read gives it; failure means the old; an unbroken failure has a stated cause |
| AbsoluteStore.ReadSecure | store/store.go:77-79 | Changes nothing; undisturbed the result is the specification for the path, a success is its content and "not found" means there is none |
| AbsoluteStore.OpenAppendSecure | store/root.go:242-257 | Under any interference the handle is the regular file Lstat saw under the last element or one this call made there; undisturbed it is the private file the path leads to, made empty if absent, and the content of the path is unchanged either way |
| Interleaving.EventKeeps | store/root.go:105-211 | Any system call or return of any of any number of writes, reads and removals keeps: each staging file has one owner, one name and exactly the bytes written so far, no reader holds one, and every name agrees with its register |
| Interleaving.StepsAreAtomic | store/root.go:105-211 | No single step of any call makes a name show anything but its old content, the whole data of the writer renaming there, or nothing at a removal |
| Interleaving.ReadIsOpenTimeValue | store/root.go:181-197 | A successful read returns exactly what its name held at the step that opened it, whatever happened before and after |
| Interleaving.ReadWasOpened | store/root.go:181-197 | On a run that starts with no call under way, every successful read has such an opening step: at it, the name of the read held exactly the bytes returned |
| Interleaving.NoTornReads | store/root.go:105-197 | On every run a successful read returns the value its name started with or one that some write of that name was given whole |
| Ledger.Ledger.LoadLocked | token/token.go:213-227 | A missing ledger is an empty list, an undecodable one an error; undisturbed the list is what the file decodes to |
| Ledger.Ledger.SaveLocked | token/token.go:229-235 | The file becomes the encoding of the list or stays as it was, at every moment one of the two |
| Ledger.Ledger.Record | token/token.go:60-70 | Success replaces the file by the image of its list with the entry added at the end; failure leaves it; every moment shows one of the two; a failure without broken calls has a stated cause; under any interference, what it installed is the image of what its own read returned, or nothing on failure; the decoded list afterwards is the one before with this entry behind it; a file that does not decode is an error |
| Ledger.Ledger.RemoveMatching | token/token.go:131-148 | The same for removing every entry of a provider that the key matches; likewise under interference; in the decoded list no entry with this provider and ID or name is left, and every other is there as often as before; a file that does not decode is an error |
| Ledger.Ledger.RemoveById | token/token.go:124-129 | An empty ID is refused without touching anything; otherwise no entry with this provider and ID is left, and every other is there as often as before |
| Ledger.Ledger.Cleanup | token/token.go:151-179 | In the decoded list, by fields: afterwards no entry has an expiry before the start, or a nonzero issue time more than the age before it; an entry with no expiry before the end, and with no issue time or one not more than the age before the end, is there as often as before; the count is the difference in length, and 0 with the file unchanged on error; nothing is written when nothing goes; under any interference it installs exactly what its own read and clock readings call for; a file that does not decode is an error |
| Ledger.Ledger.Find | token/token.go:198-211 | The first entry of the provider that the key matches, or there is none, by provider and ID or name; a file that does not decode is an error |
| Ledger.KeepUnmatched | token/token.go:140-146 | The loop keeps exactly the entries the key does not match, in order |
| Ledger.KeepFresh | token/token.go:160-170 | The loop keeps exactly the entries that are not stale at the clock reading made for each |
| Tokens.WithoutCounts | token/token.go:140-146 | Removal keeps every unmatched entry as often as it was there and no matched one |
| Tokens.RemovedByField | token/token.go:117-146 | By fields: removal by ID, or by name, keeps an entry as often as it was there unless it has that provider and that ID or name, and then not at all |
| Tokens.RemovalLeaves | token/token.go:131-148 | The same for what the file decodes to after a removal |
| Tokens.CleanupSurvivors | token/token.go:151-179 | Under a moving clock the survivors are an order-preserving sublist; of an entry that survives the expiry is not before the start and a nonzero issue time not before the cutoff; one that is gone had an expiry before the end, or a nonzero issue time before the cutoff |
| Tokens.KeptByField | token/token.go:157-170 | For every entry: with an expiry before the first clock reading, or a nonzero issue time before the cutoff, it is not kept; with none before the last reading and none before the cutoff it is kept as often as it was there |
| Tokens.CleanupLeaves | token/token.go:151-179 | The same for what the file decodes to, in terms of the call's start, end and age |
| Tokens.NothingDropped | token/token.go:172-177 | A cleanup that counts nothing removed has the very list it started with, and none of its entries was stale |
| LedgerThreads.MoveKeeps | token/token.go:49-70 | Every step of any number of ledger calls under the process lock, and of unrelated store calls beside them, keeps the file equal to the fold of the committed operations in lock order; what a call decides between its read and its write is `LedgerSteps.Decide`, the function the calls of `Ledger` are proved to go by |
| LedgerThreads.SaveCommits | token/token.go:229-235 | The one step that commits is the rename of the ledger's staged write, and it installs exactly the operation's image |
| LedgerThreads.LoadAdvances | token/token.go:213-227 | What the lock holder reads stays what the file holds until the holder writes |
| LedgerThreads.LedgerLinearizable | token/token.go:49-70 | On every run, at every point, the file decodes to the fold of the committed operations in lock order; a call that succeeded is committed under its turn, or is a cleanup that found nothing stale in the fold of the turns before its own; one that failed is not committed |
| LedgerHistory.RecordStays | token/token.go:60-70 | A recorded entry is in the list exactly once more than before until a later removal or cleanup takes it or it is recorded again |
| LedgerHistory.RecordedOnce | token/token.go:60-70 | The same for the file on every run of concurrent calls |
| LedgerHistory.RotationsConverge | sts/rotate.go:93-121 | Rotations with no new ID among the old IDs commit in any interleaving to one multiset: the initial entries without each replaced (provider, ID) pair plus one entry per replacement |
| LedgerHistory.ConcurrentRotations | sts/rotate.go:93-121 | The same for what the file decodes to on every run of concurrent calls in which exactly the planned operations were committed |
| RotationThreads.DeedKeeps | sts/rotate.go:73-122 | Every step of any number of rotations, from their first request on and each driven by the course of a rotation, and of other calls, keeps: the commit log is exactly the marked operations of the rotations plus those of others, and each rotation's stage agrees with its marks |
| RotationThreads.EveryRotationRecoverable | sts/rotate.go:93-122 | Any number of rotations, ledger calls and store calls at once, crashes anywhere: as long as the others do not take the entries concerned, at every point of every run each old token has its entry in the list and no revocation asked for, or a recorded replacement; and a recorded replacement's entry is in the list from then on, also where several rotations replace one token |
| RotationThreads.StageIsJournal | sts/rotate.go:73-122 | On every run the stage of each rotation thread is the one its own journal leads to by the course that the journals of Rotation.Rotate follow |
| RotationThreads.EveryJournalRecoverable | sts/rotate.go:73-122 | The same in the journals' own words: while no rotation of a token has asked for its revocation its entry is in the list, whoever asked had the replacement recorded before, and a recorded replacement is in the list |
| RotationThreads.RotationsFinish | sts/rotate.go:93-122 | When every rotation has ended with both its ledger calls successful and no other call was committed, the file decodes to the initial entries without each replaced pair plus one entry per replacement |
| Rotation.Configure | sts/rotate.go:48-53 | The loop computes the configuration of RotationRules.LastWins and DefaultStands |
| RotationRules.LastWins | sts/rotate.go:48-53 | The last option of each kind decides, whatever stands between, absent ones included |
| RotationRules.DefaultStands | sts/rotate.go:48-53 | A kind that was not given keeps its default |
| Rotation.RecordReplacement | sts/rotate.go:93-99 | At every moment of the ledger write, with no one else in the file system, the old entry stands unrevoked or the replacement's entry stands; success means the latter; then the decoded list holds an entry with this provider, source, and the issued ID, name, issue time, expiry and scope |
| Provider.EntryDescribes | sts/rotate.go:94-94 | The entry has every field of the issued token, an empty scope as none, and is expired at exactly the times the token is |
| Provider.StillDescribed | sts/rotate.go:94-117 | Removing another ID takes the description of no token |
| Rotation.Transition | sts/rotate.go:100-111 | Waits exactly for a positive transition and ends with the context's error exactly when it was cancelled |
| Rotation.RevokeOld | sts/rotate.go:112-115 | Asks once for the old token's revocation, and only ever with the replacement's entry in place |
| Rotation.RemoveOld | sts/rotate.go:116-121 | At every moment of the second ledger write the replacement's entry stands; success leaves no entry with the old ID, and an entry that describes the issued token stays |
| Rotation.Rollback | sts/rotate.go:82-85 | A replacement that failed validation is revoked, not the old token |
| Rotation.Complete | sts/rotate.go:93-122 | From the approved replacement on, the journal is: recorded, then at most the old revocation, then at most the removal, with flags to match; it stops before revoking only when cancelled or not recorded |
| Rotation.Finish | sts/rotate.go:62-72 | One audit entry if an audit is configured, successful exactly when there was no cause so far; a failing audit turns success into failure and sets no flag |
| Rotation.Attempt | sts/rotate.go:73-122 | Everything before the audit: an ordered journal, truthful flags, and a cause exactly when the rotation is not done; the journal follows the course that drives the rotation threads |
| Rotation.Rotate | sts/rotate.go:44-123 | Refused calls do nothing. Otherwise: at most one issue and one revocation; the old ID is revoked only after a usable replacement with another ID was validated and, with a ledger, recorded; the new ID only after it failed validation; each flag is set exactly when its call succeeded; the whole journal follows the course of RotationStages; one audit entry at the end, if configured, with the outcome before it; nil error exactly when done and audited; the audit entry is filed under the first step not completed; the old token is only revoked after the transition was waited for. And if the ledger held the old entry and no other process or thread uses the file system meanwhile, every moment, crashes included, shows the old entry with no revocation asked for, or the validated replacement's entry, in a complete before-or-after list (with others at work: RotationThreads.EveryRotationRecoverable); on any ledger nobody else changes meanwhile, recorded means that the decoded list has an entry with the provider, the source and the issued ID, name, issue time, expiry and scope, and removed that none has the old ID; no step is left out: a usable token is validated, then revoked if it failed, else recorded if there is a ledger; each revocation is answered, and the old entry's removal follows the old token's |
| RotationRules.SettledReported | sts/rotate.go:62-72 | The audit closes the journal and changes no flag but its own |
| RotationRules.OnlyReplacementsTried | sts/rotate.go:73-81 | Unless the answer has an ID other than the old one and a value, the rotation fails and asks for nothing more; otherwise that value is put to the test |
| RotationRules.AuditNames | sts/rotate.go:62-122 | The action and the name the audit entry is filed under, case by case |
| RotationRules.RecoverableMeans | sts/rotate.go:93-122 | What a crash leaves at any moment so described: a readable list that has the old ID, with no revocation asked for, or every detail of a token that was issued with another ID and found valid |
| RotationRules.CompletionDisciplined | sts/rotate.go:93-122 | Every journal of a completion justifies each revocation by what came before it |
| RotationRules.CompletionTruthful | sts/rotate.go:93-122 | And its flags say exactly which calls succeeded |
| RotationRules.CompletionPursued | sts/rotate.go:93-122 | And they leave no step out: recorded if there is a ledger, a revocation answered, the removal behind a revocation that succeeded |
| Rotation.TurnDown | sts/rotate.go:73-81 | A refused request, or an answer nobody can use, ends the rotation with nothing done and a cause |
| RotationRules.CompletionFollowed | sts/rotate.go:93-122 | Every journal of a completion follows the course of a rotation to a point where it may end |
| RotationStages.StageTells | sts/rotate.go:73-122 | Along the course, the stage says exactly whether the old token's revocation was asked for and whether the replacement was recorded, and with a ledger never the first without the second |
| RotationRules.RecordRecoverable | sts/rotate.go:93-99 | A crash anywhere in the first ledger write leaves the old entry unrevoked or both entries |
| RotationRules.RemovalRecoverable | sts/rotate.go:116-121 | A crash anywhere in the second ledger write leaves the replacement's entry |
| Base64.RoundTrip | secret/secret.go:160-160 | Decoding what was encoded gives the bytes back, for every byte string (section 4 of RFC 4648) |
| Base64.SymbolTable | secret/secret.go:160-160 | The 64 characters are those of table 1 of RFC 4648, in order |
| Base64.GroupIsNumber | secret/secret.go:160-160 | Three bytes and their four characters are one number, to the base of 256 and of 64 |
| Base64.FirstGroup | secret/secret.go:160-160 | Longer data are encoded group by group from the front |
| Base64.EncodeArmoured | secret/secret.go:160-160 | Encoded text is made of alphabet characters and padding only |
| Base64.BreaksIgnored | secret/secret.go:212-215 | Line breaks anywhere in the text do not change what it decodes to |
| Quoting.EscapeGrows | secret/secret.go:278-282 | The two replacement passes together escape each character once, in the right order |
| Quoting.QuotedArgument | secret/secret.go:278-282 | A quoted value is read back as exactly one argument, whatever characters it holds and however the reader treats text behind a closing quote |
| Keychain.CommandParses | secret/secret.go:161-162 | For every key and value the command line splits into exactly the intended arguments |
| Keychain.ScriptStores | secret/secret.go:153-171 | For every valid key the script is one command that stores exactly this value, marked, under exactly this key |
| Keychain.StoredMeans | secret/secret.go:205-222 | What Put stores means its bytes under all three legacy policies |
| Keychain.EncodedMeans | secret/secret.go:205-222 | For every value, "b64:" with its encoding gives the value where marked or under the base64 policy, its own bytes under the plain policy, and is rejected by default |
| Keychain.GarbledMeans | secret/secret.go:205-222 | The prefix with anything that does not decode is an error where it is to be decoded |
| Keychain.LiteralMeans | secret/secret.go:205-222 | Without the prefix an unmarked password gives its own bytes under all three policies, a marked one is an error |
| Keychain.ValidKeyMeans | secret/secret.go:284-292 | A key is valid exactly when both parts have something other than white space and no NUL, carriage return or line feed |
| Keychain.ReportMarks | secret/secret.go:228-236 | On a metadata report the mark is found exactly when the item carries it, whatever the account and service look like |
| Keychain.HasEncodedKind | secret/secret.go:228-236 | The loop answers whether some trimmed line is the mark |
| Keychain.KeysHaveOwnFiles | secret/secret.go:101-110 | Different valid keys have different texts to digest, so their files differ exactly unless the digest collides on those two texts |
| KeychainStore.Interpret | secret/secret.go:205-222 | From the mark and the output alone: an encoded value gives the value when marked or under the base64 policy, its own bytes under the plain one and a rejection by default; anything else the value the item has under the policy, or the matching error |
| KeychainStore.MiddleIsMarkedAlike | secret/secret.go:186-203 | If others only store marked items or delete, equal marks before and after are the mark of the item read in between |
| KeychainStore.Get | secret/secret.go:175-223 | Undisturbed it is the specification; under any interference a success is three looks at the item, two equal marks around one password, and the value these make; under concurrent writers that only store marked items it is the logical value the item had at the instant of the middle read |
| KeychainStore.GetRefuses | secret/secret.go:175-185 | Rejected exactly for bad keys and policies before looking; missing exactly when nothing is there |
| KeychainStore.GetEncoded | secret/secret.go:205-222 | What Get gives for an item with an encoded value, marked or not, under each policy |
| KeychainStore.GetLiteral | secret/secret.go:205-222 | What Get gives for an item without the prefix, marked or not, under each policy |
| KeychainStore.Put | secret/secret.go:153-171 | Undisturbed and unbroken it stores the value and succeeds; under any interference success means the three looks of a verifying Get made exactly this value, and under tame writers that the item had it at the middle one; undisturbed nothing else changes |
| KeychainStore.PutThenGet | secret/secret.go:153-223 | After a Put every Get under every policy returns exactly those bytes, and every other key returns what it did |
| KeychainStore.Delete | secret/secret.go:239-251 | Idempotent, and touches only its own key |
| WindowsAcl.CheckEntry | store/permissions_windows.go:50-84 | Reads only bytes inside the descriptor, with no wrap-around, wherever the entry is said to be, and passes it exactly when it lies inside and denies access or grants it to a trusted principal |
| WindowsAcl.EntryMeans | store/permissions_windows.go:50-84 | For all bytes: an entry passes exactly when it lies in the buffer with the size it claims and is access-denied, or access-allowed with one of the three insiders' identifiers whole within it |
| WindowsAcl.OwnBytesOnly | store/permissions_windows.go:50-84 | What an entry is judged by are its own bytes, not those around it |
| WindowsAcl.TrustedMeans | store/permissions_windows.go:91-93 | Insiders are the current user, S-1-5-18 and S-1-5-32-544, by their numbers |
| WindowsAcl.TypesMean | store/permissions_windows.go:62-70 | Access-allowed is type 0, access-denied type 1, nothing else is either |
| WindowsAcl.ValidateDescriptor | store/permissions_windows.go:26-89 | Accepts exactly when owner, list and every entry do |
| WindowsAcl.SidInjective | store/permissions_windows.go:91-93 | Comparing encoded principals compares principals |
| WindowsAcl.EncodedEntry | store/permissions_windows.go:62-84 | One encoded entry (sections 2.4.4.1, 2.4.4.2 and 2.4.4.4 of MS-DTYP) is judged by what it says |
| WindowsAcl.EncodedListAccepted | store/permissions_windows.go:26-89 | On the encoding of any well-formed list, anywhere in a self-relative descriptor with a trusted owner, the check accepts exactly when each entry is access-denied or access-allowed for a trusted principal |
| WindowsAcl.EncodedListMeans | store/permissions_windows.go:26-93 | A descriptor with the encoding of any well-formed list is accepted exactly when its owner is one of those insiders and each entry denies access or grants it to one of them |
| Audit.Scanner.Scan | audit/audit.go:92-94 | However the reads cut the file up, the next token is the next line of the file; it gives up exactly on a line that does not fit the buffer |
| Audit.ReadAll | audit/audit.go:91-123 | The loop returns, in order, the decodable matching entries before the first line over the bound, and "too large" exactly when there is such a line |
| Audit.Query | audit/audit.go:81-124 | Unless a read failed, the answer is that of plain line splitting on the whole file: in order the decodable matching entries before the first line over the bound, "too large" exactly when there is one; after a failed read, that of the part before it; no file answers like an empty one |
| AuditLines.PrefixTooLarge | audit/audit.go:94-97 | A line that is already too long decides the answer, whatever follows it |
| AuditLines.AppendedLine | audit/audit.go:69-72 | A record appended behind complete lines is one more line, whatever they are |
| AuditLines.GluedLine | audit/audit.go:69-72 | Behind an unfinished line a record does not get its own: the lines are the complete ones before, and then the unfinished part and the record as one |
| AuditLines.OwnLineIff | audit/audit.go:69-72 | A record becomes one more line of its own if and only if what stands before it is terminated |
| AuditLines.OneCRDropped | audit/audit.go:92-94 | A line is what stands before a line feed or a carriage return and a line feed; only one carriage return goes |
| AuditLines.SelectedMeans | audit/audit.go:99-119 | The answer has, in order, the entries of the decodable lines that are not before the given time and of the given provider, or of any if none is given, and no others |
| AuditLines.CutOff | audit/audit.go:69-74 | Behind complete lines, a write that was cut off leaves complete lines again if and only if nothing or everything was written out; otherwise what was written is the unfinished line |
| AuditLines.GluedTooLarge | audit/audit.go:94-97 | A query gives up behind a record if and only if it would have before, or the unfinished part and the record are over the bound together |
| AuditLog.Logger.WriteAll | audit/audit.go:70-72 | However the writes are cut up, the file grows by exactly what was written out |
| AuditLog.Logger.Log | audit/audit.go:50-74 | Success appends exactly the encoded stamped entry and a line feed, at most the bound; failure appends nothing or a proper prefix of that; an oversized or unencodable entry touches nothing |
| AuditLog.LogRoundTrip | audit/audit.go:50-124 | Any sequence of records that Log accepts behind complete lines is found again by a query, filtered, in order, behind what was there |
| AuditLog.AllLoggedFound | audit/audit.go:50-124 | In particular a query that everything matches returns exactly what was logged, in order |
| AuditLog.FailedLogGlues | audit/audit.go:69-97 | After a Log that failed part-way the next record is glued to what was left; exactly when both are over the bound together, no query ever gets past that line, whatever is logged later, although each record was within the bound |
| Profile.ProfilePaths | profile/profile.go:217-238 | A valid name is one ordinary path element: "profiles/<name>.json" and "credentials/<name>" |
| Profile.ValidNameMeans | profile/profile.go:217-243 | Valid names, character by character: first a letter or figure, no white space at the end, no separator, wildcard or control character, at most 64 bytes |
| Profile.Active | profile/profile.go:148-166 | Undisturbed and unbroken: every valid name that the selection file holds, with either line ending, is the answer; missing or empty it is the default; anything else invalid or unreadable is an error; nothing changes |
| Profile.NameIsRead | profile/profile.go:148-166 | For every valid name, with a line feed, a carriage return and a line feed, or nothing behind it, the answer is that name |
| Profile.OtherwiseRead | profile/profile.go:148-166 | No file and no name mean the default, any invalid name is an error |
| Profile.SetActive | profile/profile.go:168-176 | After a success Active answers the name that was set, or the default for none; an invalid name touches nothing; at every moment the selection is the old or the new one and no other name differs |
| Profile.Delete | profile/profile.go:120-144 | Every moment of a deletion, and its end, is one that another attempt can start from: the directories are a tree, its files are as they were or gone, the selection is as it was or reset because it was this profile, and no other name differs; success means both files gone and the selection reset exactly then. This includes a configuration directory that does not exist; undisturbed and without broken calls a valid name fails only for an unreadable selection, something that is no private regular file in the way, or a leftover staging name. On the bytes: a selection of this profile, with either line ending, is a single line feed afterwards; one of another valid name stays |
| Profile.Completes | profile/profile.go:120-144 | A deletion that completes a partial one ends where one undisturbed deletion would |
| Profile.Attempt | profile/profile.go:120-144 | One attempt from whatever earlier ones left, dying after any of its changes or not: what it leaves is again a start for the next, and if it returns success the deletion as a whole is done |
| Profile.DeleteAtLast | profile/profile.go:120-144 | Any number of real attempts, each failing or dying anywhere, until one succeeds: the end is exactly that of one undisturbed deletion from the very beginning |
| Profile.Restartable | profile/profile.go:120-144 | The same over any sequence of states that attempts may leave, with a completed deletion at the end |
| Session.LegacyIsStricter | session/session.go:39-48 | For every int64 TTL and every time not before creation, live under the whole-second rule implies live under the precise one |
| Session.RulesAgree | session/session.go:39-48 | The rules agree at every such time if and only if the TTL is a whole number of seconds or not positive |
| Session.BeforeCreation | session/session.go:39-48 | For all inputs: the whole-second rule calls live what the precise one calls expired if and only if the TTL is negative and shorter than a second and the time lies before creation by no more than it |
| Session.GuardIsOverflow | session/session.go:43-46 | The guard refuses exactly the second counts whose nanoseconds do not fit an int64 |
| Session.ExpiryMeans | session/session.go:39-48 | A session with a precise expiry is expired from then on; an older one is live exactly before its creation plus its whole seconds, if those are not negative and fit an int64 |
| Session.ValidProviderMeans | session/session.go:152-165 | Valid providers, character by character |
| Session.FirstSetMeans | session/session.go:118-130 | The first variable that is not empty, if there is one |
| Session.PathsDiffer | session/session.go:145-150 | No two providers share a session file |
| Session.Manager.Save | session/session.go:83-103 | What a read of the session file gives afterwards is the encoding of the key with the expiry the clock and the TTL make; every other readable session reads the same, also after a failure; an invalid provider or unencodable session touches nothing; without broken calls it fails only for an invalid provider, an unencodable session, an obstacle or a leftover staging name |
| Session.Manager.Resolve | session/session.go:118-143 | Explicit value, else first variable set, else the cached key while it is not expired, else nothing |
| Session.SavedResolves | session/session.go:83-143 | Where the saved bytes are, the cache answers the key until its precise expiry, and nothing from then on |
| Session.SaveThenResolve | session/session.go:83-143 | Save, then any number of saves for other providers, well or badly, then an unbroken Resolve: it answers the key before the precise expiry and nothing from then on |

## Left out

- `store.XDGConfigDir`, `store.Exists`, `resolve`, `oauth`, `sts/health.go`: environment, terminal, HTTP and library plumbing with thin logic of their own.
- `token.List`, `token.Expiring`, `profile.List`, `profile.Save`, `profile.UpdateLastUsed`, `secret.FileStore.Put`, `Get` and `Delete`: single calls of operations that are modelled, or easy filters; they would only add easy members.
- JSON text, SHA-256, the `security` process and the Windows API: abstracted as stated under Assumptions.
- Power-loss durability, several processes writing one ledger, case-insensitive file systems: the code gives no guarantee there.
- Waiting times, the five-second bound on the rollback request and file syncing: only the order of steps and the points of cancellation are kept.
- Rooted.ReadAll: models `io.ReadAll` by any number of reads up to an arbitrary bound, since another process may keep a file growing for ever; running out of it is a failure.
- StagedWrite.WriteSecureAt: renaming one of two hard links to an inode over the other is not modelled as the no-op POSIX makes of it, because a staging file never has a second link.
- Profile.Active: text is handled through an abstract UTF-8 codec; names are limited by their encoded size as in the code.
- Rotation.Rotate: its crash statement is for a machine on which nobody else uses the file system; with other calls and rotations at work it is RotationThreads.EveryJournalRecoverable that holds, for threads that follow the same course. Each `return finish(...)` of the source is one common tail here.
- RotationThreads.EveryRotationRecoverable: is about ledger and store calls of one process (the lock is the process's own), and rotations with a ledger; waiting and the audit's own write are not steps of it.
- AuditLog.Logger.Log: what it appends is stated for an undisturbed machine; the order of records of several loggers on one file is left to the append semantics of the system.
- LedgerThreads.LedgerLinearizable: a thread's directory preparation before its write may be taken by another idle thread of the run, because a call's automaton begins when it holds its parent directory.
