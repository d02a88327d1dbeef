# Ullage: a verified model of its credential store, protocols and text handling

Ullage is a daemon and a command-line client that watch subscription usage for several providers and accounts. This
project models the parts of it whose correctness is a matter of state, interleaving or exact text, and proves what they
keep. `dafny verify dfyconfig.toml` checks everything.

| file | what it models |
|---|---|
| `RecordCodec.dfy` | the binary credential record: printer, cursor parser, and a parser-free meaning of the format |
| `VersionedStore.dfy` | `get`, `set`, `replace` and `delete` on one record, over raw bytes, with a faulty backend |
| `WeakRegistry.dfy` | registries that hold their objects weakly and sweep on every lookup |
| `VaultProtocol.dfy` | any number of store handles and calls over any number of vault scopes, step by step |
| `RefreshProtocol.dfy` | single-flight refresh with leaders, followers, cancellation and detached calls, on top of the former |
| `SecretEquality.dfy` | comparing secrets by a fold without early exit |
| `DuplicateCleanup.dfy` | retiring accounts signed in as the same person: one cleanup, and any number at once |
| `InstanceCache.dfy` | provider registration and the per-account instance cache under racing callers |
| `ServiceMarker.dfy` | the Windows service marker: its format, install and uninstall with failures and crashes at any step |
| `LoginDriver.dfy` | interactive login against an arbitrary daemon |
| `LoginAnswers.dfy`, `LoginLabels.dfy` | how login reads menus, names and pasted values, and the labels it makes up |
| `CliText.dfy` | stripping terminal escape sequences |
| `Quoting.dfy` | XML and systemd quoting by successive replacement passes |
| `FrameReader.dfy` | reading one newline-terminated reply in arbitrary pieces |
| `Basics.dfy`, `Characters.dfy` | result types; character classes, trimming and case folding |

## How the model is built

Code that works step by step is modelled as methods with loops, and as classes where it updates an object: the codec's
loops, the store's critical sections, the registries, one cleanup, the provider registry, the service host, the login
session, the text strippers and the frame reader. Each is proved against a specification function or against an outright
property. Where several tasks interleave, the model is a labelled transition system: `Action` is what a task does between
two points at which another may run, `Enabled` says when it may, `Apply` what it does; invariants are proved for every
step and carried over every run by induction.

* The store has two layers. `Serve` is one operation as an atomic action on one slot; the `CredentialStore` methods are
  proved to compute it from bytes. `VaultProtocol` splits an operation into its real steps (find the mutex, lock, read,
  write, unlock, drop the mutex) and is proved to refine the atomic register that only ever does `Serve`.
* `RefreshProtocol` contains a whole vault state and only moves it by vault steps, so each of its runs projects to a run
  of the vault protocol and inherits everything proved there. A refresh leader's store calls are separate calls: a
  cancelled leader leaves them running. Setting a flight's result, unregistering it and notifying are three steps.
* `LoginDriver` states the driver's protocol as a law over the trace of exchanges: `Permitted` says what may be sent after
  a trace, `Owed` what must be sent next, `Lawful` that a whole trace obeyed both. `InteractiveLogin` is proved lawful for
  every daemon (an arbitrary function of the exchanges so far), both clocks and every sequence of answers; the lemmas after
  it derive from the law what a person cares about. The session's methods require of the trace what their callers have
  established, never anything of the daemon or the person.

* A specification function that a method computes is fixed by a law of its own, in other terms: characters by code points,
  bytes by position, answers by what was typed, one cleanup of the protocol by the sequential loop, stripped text by a way
  to take it apart. Steps of the protocols are also shown to be possible: no call or task waits for anything but what the
  code waits for.

What the model takes as given:

* Backend reads are faithful: they return what was written last, or a fault that is not "not found". Writes may be
  refused, may land, or may land and still report a failure. A panic inside a blocking call counts as such a failure.
* Only one process uses a vault scope. A vault may already hold anything when the process starts.
* A store call keeps its coordination object alive until it returns, as a borrowed or cloned handle does.
* A version is only passed to `refresh` if the store issued it for that key; `credential.rs` documents this of its callers,
  but the code does not check it. Results that need it say so (`Faithful`, `honest`); the others hold without it.
* Clocks, the kernel's way of splitting reads, random names and the outcome of every outside call are arbitrary inputs.

## Where the code does less than its documentation says

* The comments on `retire_duplicates` (`crates/ullage-daemon/src/control.rs:208-217`) say that nothing is deleted before its
  replacement is known to work, and that each account is signed out before it is removed. What the gate's comment
  (`control.rs:265-267`) is after does hold: if cleanups are the only sign-outs and removals of a person who had a signed-in
  account, that person still has one, whatever else happens (`IdentitySurvives`). But the gate orders the cleanups of one
  provider only; sign-ins, sign-outs and removals asked for by anybody else take no gate. The model lets others change any
  account to anything, and remove any account, at any time. Four runs show what can happen then: the target is signed in as
  somebody else before its logout (`RaceBeforeLogout`) or between its logout and its removal, so that an account goes while
  signed in (`RaceBeforeRemoval`); or the keeper is signed in as somebody else (`RaceOnKeeper`) or removed
  (`RaceDropsKeeper`), and the cleanup still takes the last account of its person. `StepLosesIff` and `CleanupsSpareIff` say
  exactly when a cleanup takes a person away, for every reachable step and every run of the model; `NoCleanupLoses` gives a
  condition on what others do under which it never happens.
* `docs/architecture.md:310-315` says that retrying an install completes either side of an interrupted registration and that
  uninstalling safely removes a pending task or marker. A registered Windows task nevertheless stops being named by the
  marker in exactly two ways: a creation takes effect but reports failure and the rollback removes the marker, or a query
  overlooks the existing task of a pending marker and the uninstall removes the marker. `InstallOrphansIff` and
  `UninstallOrphansIff` give both in terms of what each step meets, `NamedThroughoutIff` carries them over all runs, and
  `MisreportsOrphan` runs one of each.
* The comment on `discard_account` (`crates/ullage-client/src/login.rs:1006-1009`) speaks of an account this run created. The
  answer to `AddAccount` is not checked against the accounts listed, so a login may log out and remove an account that
  existed before. `RemovalHitsListedIff` says exactly when: the login gives an account up, and that answer reused a listed
  id. `ReusedIdIsRemoved` is such a trace.

## Model

| member | source | states |
|---|---|---|
| RecordCodec.Encode | crates/ullage-auth/src/credential.rs:258-295 | encoding succeeds if and only if 29 plus the sum over fields of 6, name length and value length is at most 1 MiB, and then yields the record's image; otherwise "too large" |
| RecordCodec.EncodeFields | crates/ullage-auth/src/credential.rs:276-293 | the field loop stops with "too large" exactly when the whole list cannot fit, however far it got |
| RecordCodec.EncodeField | crates/ullage-auth/src/credential.rs:277-292 | one field is appended in full or refused, and its lengths then fit their prefixes |
| RecordCodec.Take | crates/ullage-auth/src/credential.rs:366-375 | a slice is taken exactly when enough input is left, and the cursor moves by its length |
| RecordCodec.ReadNumber | crates/ullage-auth/src/credential.rs:377-396 | a big-endian number of the given width, or nothing when the input ends |
| RecordCodec.ReadField | crates/ullage-auth/src/credential.rs:333-344 | a length-prefixed name and value at the cursor, and the cursor behind them |
| RecordCodec.ReadFields | crates/ullage-auth/src/credential.rs:331-347 | the loop over fields agrees with the recursive parser, duplicate and insertion failures included |
| RecordCodec.Decode | crates/ullage-auth/src/credential.rs:297-354 | the cursor decoder is total and computes `Parse` |
| RecordCodec.BigEndianRoundTrip | crates/ullage-auth/src/credential.rs:377-396 | a number that fits a width survives printing and reading |
| RecordCodec.BigEndianCanonical | crates/ullage-auth/src/credential.rs:377-396 | every byte string is the big-endian image of the number it reads as |
| RecordCodec.EightBytes | crates/ullage-auth/src/credential.rs:265-266 | generation and revision are written with their high four bytes first |
| RecordCodec.FourBytes | crates/ullage-auth/src/credential.rs:268-270 | a 32-bit number is written as its four bytes, most significant first |
| RecordCodec.ImageLayout | crates/ullage-auth/src/credential.rs:258-295 | where every byte of a record's image is: the magic at 0, generation at 8, revision at 16, the active flag at 24, the field count at 25, and from 29 on each field as two length bytes, name, four length bytes, value |
| RecordCodec.NameLessIff | crates/ullage-auth/src/credential.rs:129-147 | the order of field names is byte order: decided at the first difference, a prefix first |
| RecordCodec.InsertSets | crates/ullage-auth/src/credential.rs:129-147 | inserting under a name, new or taken, leaves exactly the new field under it and every other field as it was, in order |
| RecordCodec.TryInsertIff | crates/ullage-auth/src/credential.rs:129-147 | a field is refused for its name, then as too many where 64 others are there; otherwise it is inserted |
| RecordCodec.InsertFresh | crates/ullage-auth/src/credential.rs:129-147 | inserting a new valid name keeps the map ordered and adds exactly that field |
| RecordCodec.CollectIff | crates/ullage-auth/src/credential.rs:129-147 | a field list of at most 64 entries is collected if and only if its names are valid and distinct |
| RecordCodec.ActiveImages | crates/ullage-auth/src/credential.rs:304-354 | a byte string of the active form is accepted if and only if its version is positive, its fields number at most 64 and their names are valid and distinct |
| RecordCodec.DecodeSound | crates/ullage-auth/src/credential.rs:297-354 | whatever is accepted is a stored form of the record returned, by a definition of the format that mentions no parser |
| RecordCodec.DecodeComplete | crates/ullage-auth/src/credential.rs:297-354 | every stored form of a record, fields in any order, decodes to that record |
| RecordCodec.RoundTrip | crates/ullage-auth/src/credential.rs:258-354 | the image of a record decodes to it exactly when the record is well formed, and is rejected otherwise |
| RecordCodec.Canonical | crates/ullage-auth/src/credential.rs:258-354 | re-encoding an accepted input succeeds with the same length and decodes to the same record |
| RecordCodec.DuplicateRejected | crates/ullage-auth/src/credential.rs:331-347 | a field list with a repeated name is never accepted |
| RecordCodec.PrefixFree | crates/ullage-auth/src/credential.rs:346-354 | no accepted record is a proper prefix of another accepted record |
| SecretEquality.SameIffEqual | crates/ullage-auth/src/credential.rs:96-111 | the xor-or fold over all bytes decides exactly equality |
| VersionedStore.StableBytesInjective | crates/ullage-auth/src/credential.rs:53-63 | two credential keys with accepted components never share a stable name |
| VersionedStore.PutsMoveUp | crates/ullage-auth/src/store.rs:306-375 | any record an operation decides to write is well formed, fits, and ranks strictly after the one it supersedes |
| VersionedStore.GetServed | crates/ullage-auth/src/store.rs:296-304 | `get` changes nothing and gives the record, or the error of a missing, deleted, garbled or faulty slot |
| VersionedStore.SetServed | crates/ullage-auth/src/store.rs:306-332 | `set` stores the credential it was given under the version that is due, with every failure and what it leaves |
| VersionedStore.ReplaceServed | crates/ullage-auth/src/store.rs:334-358 | `replace` stores its credential under the next revision, only over the version it expects, with every failure |
| VersionedStore.DeleteServed | crates/ullage-auth/src/store.rs:360-375 | `delete` leaves the tombstone of the next generation, with every failure |
| VersionedStore.StoredIsLoaded | crates/ullage-auth/src/store.rs:296-358 | whatever was set or replaced carries the credential asked for, and the next undisturbed `get` loads it |
| VersionedStore.DeletedIsRevivedLater | crates/ullage-auth/src/store.rs:313-375 | a deleted key reads as missing, and the next `set` starts the generation after the deleted one |
| VersionedStore.SlotsValid | crates/ullage-auth/src/store.rs:441-458 | whatever bytes the backend holds, a record read from them is well formed |
| VersionedStore.CredentialBackend.Write | crates/ullage-auth/src/store.rs:460-472 | a write lands, is refused, or lands and still reports a failure |
| VersionedStore.CredentialStore.ReadRecord | crates/ullage-auth/src/store.rs:441-443 | an absent, garbled or faulty slot gives its own error, a record gives itself |
| VersionedStore.CredentialStore.WriteRecord | crates/ullage-auth/src/store.rs:460-472 | a record that fits is what the next read decodes, unless the write was refused; no other key changes |
| VersionedStore.CredentialStore.GetUnlocked | crates/ullage-auth/src/store.rs:445-447 | a tombstone reads as "not found" |
| VersionedStore.CredentialStore.DoGet | crates/ullage-auth/src/store.rs:296-304 | `get` on bytes is the atomic `get` on the slot |
| VersionedStore.CredentialStore.DoSet | crates/ullage-auth/src/store.rs:306-332 | `set` on bytes is the atomic `set`; a `Created` record carries the argument under the version that is due, and is what the slot then holds |
| VersionedStore.CredentialStore.DoReplace | crates/ullage-auth/src/store.rs:334-358 | `replace` on bytes is the atomic compare-and-swap; a `Replaced` record carries the argument under the next revision, and is what the slot then holds |
| VersionedStore.CredentialStore.DoDelete | crates/ullage-auth/src/store.rs:360-375 | `delete` on bytes leaves the tombstone of the next generation |
| WeakRegistry.ResolveKeeps | crates/ullage-auth/src/store.rs:508-558 | a lookup keeps every live registration, drops only dead ones, and returns what the key is registered with afterwards |
| WeakRegistry.Registry.LookUp | crates/ullage-auth/src/store.rs:508-558 | the sweep-then-find-or-insert of all three registries computes `Resolve` and reports whether it created |
| WeakRegistry.Registry.Remove | crates/ullage-auth/src/store.rs:226-239 | an entry is removed only if it still names this very object |
| VaultProtocol.InvStep | crates/ullage-auth/src/store.rs:296-370 | every step of every interleaving keeps the whole invariant |
| VaultProtocol.KeepsRooted | crates/ullage-auth/src/store.rs:276-283 | whoever holds a coordination object holds the one its scope is registered with, through all sweeps |
| VaultProtocol.KeepsLatched | crates/ullage-auth/src/store.rs:531-545 | whoever holds a mutex holds the one its key is registered with, through all sweeps |
| VaultProtocol.OneMutex | crates/ullage-auth/src/store.rs:531-558 | two calls on one key of one scope, through any handles, contend for one mutex |
| VaultProtocol.KeepsExclusive | crates/ullage-auth/src/store.rs:296-370 | no two calls hold one mutex's guard |
| VaultProtocol.KeepsCurrent | crates/ullage-auth/src/store.rs:306-370 | a call about to write still sees exactly what it read |
| VaultProtocol.KeepsChronicle | crates/ullage-auth/src/store.rs:306-370 | each key's history of landed records climbs strictly and ends in what the vault holds |
| VaultProtocol.KeepsTruthful | crates/ullage-auth/src/store.rs:296-370 | the record any answer carries is one that landed under that key, with the credential the call asked to store |
| VaultProtocol.Refines | crates/ullage-auth/src/store.rs:296-370 | each step of the concurrent store is a step of the atomic versioned register or invisible to it |
| VaultProtocol.Linearizable | crates/ullage-auth/src/store.rs:296-370 | every run is a run of the atomic register, each call taking effect between its start and its return |
| VaultProtocol.LandingClimbs | crates/ullage-auth/src/store.rs:306-370 | every landing write moves its key strictly up in (generation, revision) |
| VaultProtocol.VersionNamesOneCredential | crates/ullage-auth/src/store.rs:306-370 | over a whole run two answers about one key with the same version carry the same credential |
| VaultProtocol.AnswersCarryRequest | crates/ullage-auth/src/store.rs:306-358 | in every reachable state a successful `set` or `replace` has answered with the credential it was given, in a record that landed under its key |
| VaultProtocol.ReplaceSawNoWrite | crates/ullage-auth/src/store.rs:334-358 | if a `replace` lands, nothing landed on the key since its expected version was observed |
| VaultProtocol.DeletedStaysDeleted | crates/ullage-auth/src/store.rs:334-375 | from a tombstone on, no run without a landing `set` makes the key active |
| VaultProtocol.RevivalIsNew | crates/ullage-auth/src/store.rs:313-323 | the reviving `set` uses a generation above every version the key ever had |
| VaultProtocol.HistoryGrowsRun | crates/ullage-auth/src/store.rs:306-370 | no run rewrites or forgets a landed record |
| VaultProtocol.CallMoves | crates/ullage-auth/src/store.rs:296-370 | what the next step of a call is in each phase; only a guard held by another call keeps it from being taken |
| VaultProtocol.SomeoneMoves | crates/ullage-auth/src/store.rs:296-370 | no deadlock: a call that is not done can move, or the one that holds its mutex can |
| VaultProtocol.StepsEnd | crates/ullage-auth/src/store.rs:296-370 | each of a call's own steps brings it closer to its end, of which there are at most six, and no other step moves it |
| RefreshProtocol.InvStep | crates/ullage-auth/src/store.rs:204-260 | every step, cancellations and detached store calls included, keeps the refresh invariant |
| RefreshProtocol.KeepsManned | crates/ullage-auth/src/store.rs:377-403 | a task is on a flight of its own key, and a leader on the flight that names it |
| RefreshProtocol.KeepsCrewed | crates/ullage-auth/src/store.rs:211-260 | a flight lacks a result exactly while its leader works, and is notified exactly when its leader is gone |
| RefreshProtocol.KeepsListed | crates/ullage-auth/src/store.rs:226-239 | the registry lists exactly the flights whose leader has not unregistered |
| RefreshProtocol.KeepsAwake | crates/ullage-auth/src/store.rs:488-506 | nobody is enrolled and asleep on a notified flight |
| RefreshProtocol.ListedLive | crates/ullage-auth/src/store.rs:508-529 | a sweep never drops a listed flight, since its leader still holds it |
| RefreshProtocol.OneLeader | crates/ullage-auth/src/store.rs:508-529 | two tasks leading on one key, through any handles, are one task |
| RefreshProtocol.SingleRefresher | crates/ullage-auth/src/store.rs:377-439 | in every reachable state at most one provider refresher runs per key |
| RefreshProtocol.OkIsLater | crates/ullage-auth/src/store.rs:405-436 | every `Ok` on a flight for an issued version, to leader or follower, is strictly later than the version observed |
| RefreshProtocol.RefreshMovesOn | crates/ullage-auth/src/store.rs:377-439 | when callers only refresh versions they observed, every `Ok` any of them ever gets is strictly later |
| RefreshProtocol.RefreshReturnsReply | crates/ullage-auth/src/store.rs:414-436 | over every run after its refresher answered, a leader that returns has swapped in exactly that credential for the version it observed: it returns that record under the next revision, which landed, or the error of that call, or what it found after a conflict |
| RefreshProtocol.LeaderRefreshesIff | crates/ullage-auth/src/store.rs:405-416 | a leader goes to its refresher, with the record loaded, exactly if that has the version it observed; otherwise it publishes what it loaded, or the error |
| RefreshProtocol.ProviderErrorPublished | crates/ullage-auth/src/store.rs:414-416 | a refresher that fails costs no store call, and its error is what is published |
| RefreshProtocol.RefetchPublished | crates/ullage-auth/src/store.rs:425-436 | after a conflict the leader publishes the record a second `get` finds, or its error |
| RefreshProtocol.CancelledLeavesError | crates/ullage-auth/src/store.rs:242-260 | a leader cancelled before it published leaves its flight a synchronization error |
| RefreshProtocol.FaithfulRunsAreHonest | crates/ullage-auth/src/credential.rs:187-194 | callers that only pass issued versions make every flight one for an issued version |
| RefreshProtocol.NoSecondRefresh | crates/ullage-auth/src/store.rs:390-438 | once a refresh of a version has computed an `Ok` that is later than it, as every one for an issued version is, no refresher of any task ever runs for that version in the rest of the run |
| RefreshProtocol.PassedNeverLoads | crates/ullage-auth/src/store.rs:405-413 | a version the vault has moved past is never loaded again, so only a leader that had loaded it before can still refresh it |
| RefreshProtocol.NoLostWakeUp | crates/ullage-auth/src/store.rs:488-506 | a sleeping follower can wake, or its leader is still under way and has not notified |
| RefreshProtocol.FollowerLeaves | crates/ullage-auth/src/store.rs:390-397 | once notified, a follower is three of its own steps from returning the result, or from retrying if it observed another version |
| RefreshProtocol.LeaderLeavesOutcome | crates/ullage-auth/src/store.rs:242-260 | a leader that is gone, cancelled at any await included, has left an outcome and notified |
| RefreshProtocol.SharedResult | crates/ullage-auth/src/store.rs:390-397 | everyone who returns from a flight returns its one published result, and observed its version |
| RefreshProtocol.NotifiedIsGone | crates/ullage-auth/src/store.rs:218-224 | after notification no lookup returns that flight |
| RefreshProtocol.TaskMoves | crates/ullage-auth/src/store.rs:377-439 | what the next step of a task is at each point; only a running store call or a leader that has not notified keeps it from being taken |
| RefreshProtocol.CancellableWhileWaiting | crates/ullage-auth/src/store.rs:377-439 | a refresh can be cancelled exactly at its awaits |
| RefreshProtocol.RefreshesLinearize | crates/ullage-auth/src/store.rs:377-486 | with refreshes led, cancelled and detached, the vault is still the atomic register |
| RefreshProtocol.RefreshNeverRevives | crates/ullage-auth/src/store.rs:417-430 | after a delete no refresh, running, late or detached, makes the key active |
| RefreshProtocol.Projects | crates/ullage-auth/src/store.rs:474-486 | every run with refreshes moves the vault by a run of the vault protocol |
| DuplicateCleanup.RetireDuplicates | crates/ullage-daemon/src/control.rs:218-265 | exactly the other accounts of the provider that name the keeper's identity are signed out, only signed-out rows go, the keeper and other providers are untouched, and the answer lists exactly the accounts whose removal was reported, once each and in order |
| DuplicateCleanup.RemovesIff | crates/ullage-daemon/src/control.rs:233-260 | which account a cleanup signs out and removes, and which calls have to work for it |
| DuplicateCleanup.IdentityIff | crates/ullage-daemon/src/control.rs:592-600 | only a working or expired sign-in has an identity, and only under a key that is not blank |
| DuplicateCleanup.SameIdentityIff | crates/ullage-daemon/src/control.rs:245-250 | two keys name one person exactly if they differ in surrounding space and ASCII case at most |
| DuplicateCleanup.IdentitySurvives | crates/ullage-daemon/src/control.rs:218-274 | over every run of any number of gated cleanups, if they are the only sign-outs and removals of a person who had a signed-in account, that person still has one |
| DuplicateCleanup.SafeStep | crates/ullage-daemon/src/control.rs:218-274 | as long as others neither sign the person out nor remove their accounts, no cleanup ever aims at the only account they have |
| DuplicateCleanup.IdentityStep | crates/ullage-daemon/src/control.rs:218-265 | while no keeper has left and no target was retaken, no step of a cleanup takes away the last account of a person |
| DuplicateCleanup.InvStep | crates/ullage-daemon/src/control.rs:218-274 | whatever others change or remove, a running cleanup's keeper and target are as the cleanup read or left them or as they were last changed since, and belong to its provider |
| DuplicateCleanup.KeepsGated | crates/ullage-daemon/src/control.rs:268-274 | at most one cleanup is inside a provider's gate |
| DuplicateCleanup.OthersElsewhere | crates/ullage-daemon/src/control.rs:480-492 | while a cleanup signs out or removes its target, no other one keeps or targets that account |
| DuplicateCleanup.OnlyDuplicatesTouched | crates/ullage-daemon/src/control.rs:236-264 | an account a cleanup changes or removes is its target, another account of the provider; the keeper is signed in as the person exactly unless somebody else removed or changed it since; a removed account is signed in exactly if somebody signed it in after its logout |
| DuplicateCleanup.TargetsNamed | crates/ullage-daemon/src/control.rs:236-248 | an account becomes a target only if its own state names the keeper's identity |
| DuplicateCleanup.UngatedLosesBoth | crates/ullage-daemon/src/control.rs:268-274 | without the gate a two-task run removes both accounts of a person |
| DuplicateCleanup.SignOutLoses | crates/ullage-daemon/src/control.rs:248-256 | a logout takes the cleanup's own person away exactly if the keeper was removed or left them since it was read and the target was their last account, and anybody else exactly if somebody signed the target in as them since it was read and no other account is |
| DuplicateCleanup.RemoveLoses | crates/ullage-daemon/src/control.rs:257-262 | a removal takes a person away exactly if somebody signed the target in as them after its logout and no other account is |
| DuplicateCleanup.StepLosesIff | crates/ullage-daemon/src/control.rs:218-265 | no other step of a cleanup takes anybody away |
| DuplicateCleanup.CleanupsSpareIff | crates/ullage-daemon/src/control.rs:218-274 | over every run of any number of gated cleanups, with any changes and removals by others, cleanups spare a person exactly if no logout or removal is raced in those ways |
| DuplicateCleanup.AloneIsSequential | crates/ullage-daemon/src/control.rs:236-264 | a cleanup of the protocol that nobody interferes with signs out exactly the accounts and removes exactly the rows that the sequential loop does, however its calls turn out |
| DuplicateCleanup.OwnIff | crates/ullage-daemon/src/control.rs:224-235 | a cleanup goes on exactly for a listed account of its provider that is signed in under some identity |
| DuplicateCleanup.CleanupMoves | crates/ullage-daemon/src/control.rs:480-492 | what the next step of a cleanup is; only the gate can keep it from being taken |
| DuplicateCleanup.NoCleanupLoses | crates/ullage-daemon/src/control.rs:218-274 | it is enough that others neither take a keeper away from that person or remove it, nor sign another's target in as them |
| DuplicateCleanup.RaceBeforeLogout | crates/ullage-daemon/src/control.rs:236-256 | a run from two signed-in accounts in which a sign-in on the confirmed target before its logout is undone |
| DuplicateCleanup.RaceBeforeRemoval | crates/ullage-daemon/src/control.rs:248-262 | a run in which a sign-in on the target between its logout and its removal is undone |
| DuplicateCleanup.RaceOnKeeper | crates/ullage-daemon/src/control.rs:236-256 | a run in which the keeper is signed in as somebody else and the cleanup then signs out the last account of its person |
| DuplicateCleanup.RaceDropsKeeper | crates/ullage-daemon/src/control.rs:557-564 | a run in which somebody else removes the keeper and the cleanup then signs out the last account of its person |
| Characters.TrimIff | crates/ullage-daemon/src/control.rs:598-599 | trimming leaves exactly what lies between the white space on either side |
| InstanceCache.ProviderRegistry.Register | crates/ullage-core/src/provider.rs:245-285 | an unregistered id that is not empty and has no unsafe character is registered, anything else is refused with its own error and changes nothing |
| InstanceCache.ProviderRegistry.GetForAccount | crates/ullage-core/src/provider.rs:295-339 | the answer and the new cache in every case: missing, singleton, cached, failed, mismatched, new |
| InstanceCache.InvStep | crates/ullage-core/src/provider.rs:295-339 | every step of racing callers keeps the cache sound and never replaces an entry |
| InstanceCache.OneInstance | crates/ullage-core/src/provider.rs:295-339 | two successful calls for one provider and account, anywhere in a run, return one instance whose descriptor names the provider |
| InstanceCache.OnlyAcceptedCached | crates/ullage-core/src/provider.rs:310-338 | only an accepted construction enters the cache |
| InstanceCache.FastPathIff | crates/ullage-core/src/provider.rs:295-309 | a racing caller is answered at once exactly for a missing, a single or a cached provider |
| InstanceCache.SettleIff | crates/ullage-core/src/provider.rs:323-338 | the first construction to settle is cached, and every later one gives way to it |
| ServiceMarker.ParseMarkerIff | crates/ullage-client/src/service.rs:615-640 | the marker parser accepts exactly the printed forms, with or without the final newline |
| ServiceMarker.MarkerText | crates/ullage-client/src/service.rs:615-640 | the marker as text: `0` for pending or `1` for installed, then `Ullage-`, the scope, a hyphen and 32 hexadecimal digits, each on its own line |
| ServiceMarker.FinalizeFlips | crates/ullage-client/src/service.rs:568-576 | overwriting one byte turns a pending marker into an installed one for the same task |
| ServiceMarker.Host.TaskMarkerState | crates/ullage-client/src/service.rs:578-613 | a read that works gives the marker the file holds |
| ServiceMarker.Host.TaskExists | crates/ullage-client/src/service.rs:876-878 | a query that works tells whether the task is registered, and a failing exit counts as absence |
| ServiceMarker.Host.CreatePendingMarker | crates/ullage-client/src/service.rs:527-566 | the marker file and the answer, for every fate of its two steps: a pending marker appears whole, and only where there was none |
| ServiceMarker.Host.FinalizeMarker | crates/ullage-client/src/service.rs:568-576 | the overwritten file reads as installed for the same task, for every fate |
| ServiceMarker.Host.RecoverPendingInstall | crates/ullage-client/src/service.rs:642-660 | from the file and the tasks there are, the recovery ends as its specification says for every fate of its steps |
| ServiceMarker.Host.FreshInstall | crates/ullage-client/src/service.rs:429-442 | marker, tasks and outcome of a first install with its rollback, for every fate of its steps |
| ServiceMarker.Host.Install | crates/ullage-client/src/service.rs:416-444 | marker, tasks and outcome of an install, for every fate of its steps |
| ServiceMarker.Host.Uninstall | crates/ullage-client/src/service.rs:469-490 | marker, tasks and outcome of an uninstall, for every fate of its steps |
| ServiceMarker.FreshOrphansIff | crates/ullage-client/src/service.rs:429-442 | a first install leaves a task no marker names exactly if its creation took effect but reported failure and the rollback then removed the marker |
| ServiceMarker.RecoveryNeverOrphans | crates/ullage-client/src/service.rs:642-660 | recovering a pending install and refreshing an installed task never do |
| ServiceMarker.InstallOrphansIff | crates/ullage-client/src/service.rs:416-444 | an install does exactly in the first case, starting from no marker |
| ServiceMarker.UninstallOrphansIff | crates/ullage-client/src/service.rs:469-490 | an uninstall does exactly if a query overlooked the existing task of a pending marker and the marker was then removed |
| ServiceMarker.InstallCompletes | crates/ullage-client/src/service.rs:416-466 | from any marker, task present or not, a completed install ends installed with exactly the marked task, or the new one, and it runs the given executable unless it was a pending task found registered |
| ServiceMarker.InstallCompletesIff | crates/ullage-client/src/service.rs:416-444 | which steps have to work for an install to complete, from each marker, with the task present or not |
| ServiceMarker.UninstallCompletesIff | crates/ullage-client/src/service.rs:469-490 | which steps have to work for an uninstall to complete |
| ServiceMarker.UninstallCompletes | crates/ullage-client/src/service.rs:469-490 | a completed uninstall ends with no marker, and with no task exactly unless a query overlooked one |
| ServiceMarker.UndisturbedCompletes | crates/ullage-client/src/service.rs:416-491 | commands nothing disturbs complete from every state but an installed marker whose task is gone |
| ServiceMarker.NamedThroughoutIff | crates/ullage-client/src/service.rs:416-491 | over any sequence of installs and uninstalls failing or dying at any step, every registered task stays named by the marker exactly while no command orphans one |
| ServiceMarker.HonestNeverOrphans | crates/ullage-client/src/service.rs:416-491 | failures and crashes without a misreport never orphan a task |
| ServiceMarker.Replay | crates/ullage-client/src/service.rs:416-491 | the program, run command by command over the real marker text from any readable marker and any tasks, ends in the state those results are about |
| ServiceMarker.MisreportsOrphan | crates/ullage-client/src/service.rs:429-486 | one creation that lied, or one query that lied, leaves a registered task no marker names |
| LoginDriver.Judge | crates/ullage-client/src/login.rs:224-281 | whatever the socket brings back, a caller only sees an answer that fits its own command |
| LoginDriver.JudgeIff | crates/ullage-client/src/login.rs:237-281 | a reply or a refusal reaches the caller exactly if it came whole and fits the command |
| LoginDriver.AcceptsIff | crates/ullage-client/src/validate.rs:283-745 | which command each kind of reply can answer, and with which contents |
| LoginDriver.AcceptsRefusalIff | crates/ullage-client/src/validate.rs:238-745 | which commands each refusal can answer, and about which subject |
| LoginDriver.Session.Call | crates/ullage-client/src/login.rs:218-281 | one exchange is appended, with the daemon's answer as judged, and a permitted request keeps the trace lawful |
| LoginDriver.Session.Confirm | crates/ullage-client/src/login.rs:1155-1165 | one answer is read; it confirms exactly if it agrees, or is blank where yes is the default; end of input never does |
| LoginDriver.Session.Choose | crates/ullage-client/src/login.rs:1130-1153 | option and answers left are those of the menu specification with five tries |
| LoginDriver.Session.AskLabel | crates/ullage-client/src/login.rs:896-917 | name and answers left are those of the naming specification with five tries |
| LoginAnswers.AgreesIff | crates/ullage-client/src/login.rs:1160-1164 | only the letter y and the word yes agree, in either case, with any space around |
| LoginAnswers.MenuIff | crates/ullage-client/src/login.rs:1139-1152 | a menu gives an option exactly if the first clear one of its answers is that option's number, or blank for the default; answers behind it are left |
| LoginAnswers.PrintedNumberPicks | crates/ullage-client/src/login.rs:1136-1149 | typing the number printed beside an option picks it |
| LoginAnswers.LabelReadIff | crates/ullage-client/src/login.rs:896-917 | a name is what the first usable answer says, trimmed, or the default if that is blank |
| LoginAnswers.PastedIff | crates/ullage-client/src/login.rs:641-719 | a value is sent exactly if one may be and a safe one was typed, and then as typed but for surrounding space; when the provider is polled instead |
| LoginDriver.DefaultNameIs | crates/ullage-client/src/login.rs:426-437 | which of the reported, the carried and the made-up name is proposed, for new and old accounts |
| LoginDriver.Session.SelectProvider | crates/ullage-client/src/login.rs:465-514 | the provider, or the error, is the one the specification picks from the list, the name given and the answers |
| LoginDriver.SelectableSplits | crates/ullage-client/src/login.rs:478-481 | the candidates are the listed providers that authenticate, in order |
| LoginDriver.HintedProvider | crates/ullage-client/src/login.rs:490-500 | a provider named on the command line is used exactly if it is listed and authenticates |
| LoginDriver.TypedProvider | crates/ullage-client/src/login.rs:501-513 | a single candidate is used unasked; of several the one whose number is typed |
| LoginDriver.Session.AskCompletion | crates/ullage-client/src/login.rs:641-719 | one answer is read, and what is sent, polled or given up is what the specification makes of it; a challenge that wants a value never polls |
| LoginDriver.Session.PollDeviceFlow | crates/ullage-client/src/login.rs:787-846 | polls go out five seconds after each other's answer, each only before the expiry, within 900 seconds and, without an expiry, as one of 60; only pending, rate-limited and network answers are polled again; a timeout means exactly that the next poll was not due |
| LoginDriver.Session.Verify | crates/ullage-client/src/login.rs:861-894 | passes if and only if an independent status of this account says authenticated |
| LoginDriver.Session.CompleteFlow | crates/ullage-client/src/login.rs:641-751 | a pasted value is sent once as answered, with its redirect, otherwise the provider is polled; nothing is sent for a value given up; the state returned is the last answer |
| LoginDriver.Session.AuthenticateOnce | crates/ullage-client/src/login.rs:588-783 | success is a completion followed by a verified status, with the label the completion reported; every failure is the one its last exchange stands for |
| LoginDriver.Session.Authenticate | crates/ullage-client/src/login.rs:568-586 | terminates; every start but the first follows a failure worth retrying and uses up an explicit yes of its own, with the same method; it stops at such a failure only if the answer is no yes |
| LoginDriver.RetryableIff | crates/ullage-client/src/login.rs:184-199 | every failure but a hang-up, a missing echo and an unreachable daemon is worth retrying |
| LoginDriver.Session.RetireOthers | crates/ullage-client/src/login.rs:953-1004 | the probe is sent, and the retirement exactly if it answered |
| LoginDriver.Session.NameAccount | crates/ullage-client/src/login.rs:919-949 | the chosen label is sent first, each next one is what was answered after a refusal as taken, at most five; the result is the last answer |
| LoginDriver.Session.SignInAndName | crates/ullage-client/src/login.rs:413-453 | a verified sign-in, and no other, is followed by the cleanup and by naming the account as answered to the default name, or by showing it if that is its name |
| LoginDriver.Session.DiscardAccount | crates/ullage-client/src/login.rs:1010-1066 | the status is read, the logout follows exactly if it says not signed in, and the removal exactly if the logout is acknowledged |
| LoginDriver.InteractiveLogin | crates/ullage-client/src/login.rs:358-458 | against every daemon, clocks and answers the trace is lawful, opens on the provider and account picked, starts every sign-in with the method given and at most once more than there are yes answers; it ends in the account named as answered, or in an error that put up for removal exactly an account it created |
| LoginDriver.PickedAccountIsTarget | crates/ullage-client/src/login.rs:531-556 | typing the number printed beside a listed account makes that account the login's target |
| LoginDriver.PickedNewIsAdded | crates/ullage-client/src/login.rs:391-411 | entry 1 or a blank answer adds an account, and the sign-in is on the account the daemon added |
| LoginDriver.DemandsMet | crates/ullage-client/src/login.rs:761-1066 | in a login that has ended, everything owed was sent at once |
| LoginDriver.RemovalEarned | crates/ullage-client/src/login.rs:1010-1066 | `RemoveAccount` only for the account the daemon answered this run's `AddAccount` with, as the last request, after a status that is not authenticated and an acknowledged logout |
| LoginDriver.RemovalHitsListedIff | crates/ullage-client/src/login.rs:1010-1066 | a login logs out or removes an account listed before exactly if it gives an account up and the answer to `AddAccount` reused a listed id |
| LoginDriver.ReusedIdIsRemoved | crates/ullage-client/src/validate.rs:382-397 | nothing checks that id: a lawful trace in which a listed account is logged out and removed |
| LoginDriver.RemovalExact | crates/ullage-client/src/login.rs:1037-1065 | a finished login sends a removal if and only if a logout was acknowledged |
| LoginDriver.LogoutEarned | crates/ullage-client/src/login.rs:1010-1053 | a logout only for a created account, right after the daemon said it holds no sign-in |
| LoginDriver.RetirementEarned | crates/ullage-client/src/login.rs:953-1004 | `RetireDuplicateAccounts` only for the target, after completion, a verified status and an answered waiting probe |
| LoginDriver.NamingEarned | crates/ullage-client/src/login.rs:424-452 | an account is named only after it verified and was probed, and an answered probe was followed by the retirement |
| LoginDriver.SuccessKeepsAccounts | crates/ullage-client/src/login.rs:391-458 | a successful login returns the verified account and has logged out and removed nothing |
| LoginDriver.CreatedOnce | crates/ullage-client/src/login.rs:396-411 | at most one account is created, under a name no listed account of that provider uses |
| LoginDriver.CompletionAnswers | crates/ullage-client/src/login.rs:721-846 | every completion answers a challenge of this account; a value is sent once and only open polls come between |
| LoginDriver.DisposingLasts | crates/ullage-client/src/login.rs:454-457 | once an account is being given up nothing else is sent |
| LoginDriver.CallbackOriginIff | crates/ullage-client/src/login.rs:1114-1128 | the redirect origin is exactly the part of a web address before its query or fragment |
| LoginLabels.ProvisionalLabel | crates/ullage-client/src/login.rs:1100-1112 | the provider, a hyphen and the smallest number from 1 that no account's name has, found within one try more than there are accounts |
| LoginLabels.UsedUpCandidates | crates/ullage-client/src/login.rs:1100-1112 | accounts cannot use up more candidates than there are accounts |
| LoginLabels.DecimalRoundTrip | crates/ullage-client/src/login.rs:1103-1103 | decimal printing is undone by reading, so candidates differ |
| LoginLabels.NoLeadingZero | crates/ullage-client/src/login.rs:1103-1103 | no number is printed with a leading zero |
| LoginLabels.ParsesPrinted | crates/ullage-client/src/login.rs:1145-1149 | a printed menu number parses back, up to the largest machine integer |
| CliText.SanitizeCliText | crates/ullage-client/src/errors.rs:393-428 | the loop with lookahead computes the output of a five-mode automaton, which the rows below fix without it |
| CliText.SanitizedIff | crates/ullage-client/src/errors.rs:393-438 | a text sanitizes to another exactly if it can be taken apart into plain characters, control sequences, string sequences, stray escapes and a cut-off sequence, by character ranges alone, so that the harmless plain characters are that other text |
| CliText.PiecesShown | crates/ullage-client/src/errors.rs:393-438 | however a text is taken apart so, its harmless plain characters are what is left, in order |
| CliText.EveryTextFits | crates/ullage-client/src/errors.rs:393-438 | every text can be taken apart so |
| CliText.ControlStripped | crates/ullage-client/src/errors.rs:400-409 | `ESC [` through the first character in 0x40 to 0x7E is dropped, and to the end if there is none |
| CliText.PayloadStripped | crates/ullage-client/src/errors.rs:410-438 | an escape with one of the five string openers is dropped through the first bell, C1 terminator or escape with backslash, and to the end if there is none |
| CliText.SkipSequence | crates/ullage-client/src/errors.rs:398-415 | what follows an escape is skipped exactly as the automaton does |
| CliText.StripUntilStringTerminator | crates/ullage-client/src/errors.rs:430-438 | a control string is skipped through its terminator, or to the end |
| CliText.Composes | crates/ullage-client/src/errors.rs:393-438 | a text cut anywhere is handled from the mode its first part leads to |
| CliText.OutputClean | crates/ullage-client/src/errors.rs:393-428 | from any mode the output holds no control or bidirectional character except newline |
| CliText.OutputEmbeds | crates/ullage-client/src/errors.rs:393-428 | the output is a subsequence of the input |
| CliText.IdentityIffClean | crates/ullage-client/src/errors.rs:393-428 | text is unchanged if and only if it is clean, hence sanitizing is idempotent |
| Quoting.XmlIsSubstitution | crates/ullage-client/src/service.rs:1081-1091 | the five replacement passes equal one substitution per character |
| Quoting.XmlRoundTrip | crates/ullage-client/src/service.rs:1081-1091 | escaping is undone by unescaping, so nothing is conflated |
| Quoting.XmlNoMarkup | crates/ullage-client/src/service.rs:1081-1091 | no raw markup character is left (section 4.6 of XML 1.0) |
| Quoting.XmlEscapeIff | crates/ullage-client/src/service.rs:1081-1091 | exactly strings with a control character are refused, and every other one can be read back |
| Quoting.AmpersandFirstMatters | crates/ullage-client/src/service.rs:1085-1090 | with the ampersand last the result is the same if and only if the text holds no other markup |
| Quoting.UnitIsSubstitution | crates/ullage-client/src/service.rs:1038-1053 | the four replacement passes equal one substitution per character |
| Quoting.UnitRoundTrip | crates/ullage-client/src/service.rs:1038-1053 | unit quoting is undone by unquoting |
| Quoting.BackslashFirstMatters | crates/ullage-client/src/service.rs:1043-1047 | with the backslash last the result is the same if and only if the text holds no quote |
| Quoting.RenderUnitInjective | crates/ullage-client/src/service.rs:1038-1053 | different executables never share a unit file |
| Quoting.RenderUnitReads | crates/ullage-client/src/service.rs:1038-1053 | the unit is refused exactly for a control character; otherwise what follows `ExecStart=` reads back as one quoted word, the executable, and then ` __daemon` |
| FrameReader.ReadReply | crates/ullage-client/src/transport.rs:295-318 | what reaches the decoder is a prefix that ends in a newline and fits in 1 MiB; with no newline before the last byte it is the whole reply, or invalid if that lacks its newline or is too long, in any pieces; at most 1 MiB and one byte are ever held |
| FrameReader.FailsOpen | crates/ullage-client/src/transport.rs:296-309 | a deadline or failed read before the first newline makes the daemon unavailable |
| FrameReader.SplitsAgreeIff | crates/ullage-client/src/transport.rs:295-318 | the way the kernel splits the bytes never matters, exactly if no newline within the limit comes before the last byte |

## Left out

- Cross-process races on a vault scope or on the marker file: the code coordinates only within one process.
- Keyring, D-Bus, Windows credential and security calls, file modes, `cap_std`: foreign calls; the vault is a map with a fallible read and write.
- SHA-256, PKCE, random names, zeroization and timing: scopes and task scopes are opaque identifiers, values are modelled without memory effects.
- The daemon engine, device store, HTTP server, metric filter and `privatefs` are not part of this model. Of the engine it takes that account ids are never reused and that a removal is one step; a control request is cut off only by the daemon's shutdown, which ends a run.
- Reads that return stale or invented data: a faithful backend is assumed, so nothing is claimed without one.
- `Credential::insert` is modelled on values (`TryInsert`), since it is one map update; the parsing loop around it is a loop.
- UTF-8 validity of field names is not a separate check: the accepted name characters are all ASCII.
- The operation locks and flight mutexes are not poisoned in the model; the code recovers from poisoning everywhere.
- Fairness and liveness beyond "a next step is enabled": no scheduler is modelled.
- ServiceMarker.Replay: does not cover a marker file the program cannot read, with which every command fails before it changes anything, Start and Stop actions, the task's XML file or a task that is running; an installed marker without its task is kept as the code keeps it, with an error.
- LoginDriver.InteractiveLogin: prompt texts, diagnostics, exit codes and the daemon-version notice are not modelled; a reply of the wrong shape is rejected before the driver looks at it, so the driver's own second check is absent.
- LoginLabels.ProvisionalLabel: the index is unbounded, where the code's is a 32-bit counter no account list can exhaust.
- The process manager loops in `transport.rs`, the Windows pipe transport, `validate.rs` beyond what login needs, `config.rs`, tables, TUI, rendering and JSON: flat checks and presentation that would only add easy members.
- `render_plist` and `render_windows_task_xml`: fixed templates around `xml_escape`.
