# A verified model of omawarden

omawarden is the engine behind a Bitwarden overlay for the Omarchy shell. A daemon keeps the decrypted vault, locks it on
idleness, screen lock, suspension and after a session lifetime (twelve hours by default), and reopens it on a system
authentication prompt while a soft lock retains the user key. The rest of the engine decrypts what the server sends,
logs in, downloads attachments, generates passwords and clears the clipboard. This project models those parts in Dafny
and proves what they are for.

## How it is laid out

| file | what it holds |
|---|---|
| `Results`, `Primitives`, `LibraryExample` | options and results; octets and the library primitives (AES, HMAC, HKDF, RSA-OAEP, UTF-8) as values of function type with four assumed laws; a library that meets those laws |
| `Base64`, `Cbc`, `Texts`, `EncStrings` | cipher strings: section 4 of RFC 4648, section 6.3 of RFC 5652 and section 6.2 of NIST SP 800-38A written out, with the in-place loops that run them |
| `Keys`, `Attachments` | the forms a key travels in, the master key's candidates, the three attachment layouts |
| `Vault`, `VaultSealing`, `AttachmentKeys` | decrypting a synchronised vault, the law that it undoes what a client encrypts, and the separate lookup of an attachment's key |
| `RestoreChecks` | what a quick unlock checks about the retained key before it commits |
| `Session`, `SessionLaws`, `SessionRuns`, `Daemon` | the daemon as a state machine whose operations are atomic, what each of them does field by field, what holds over whole runs of it, and the object with its fields that makes the same steps |
| `LockRaces`, `CallsAlone`, `AnchorRaces`, `KeyRaces`, `CeilingRaces`, `RaceExamples` | the same operations one write at a time, for any number of threads |
| `Login` | password login against any server |
| `Generator`, `Clipboard`, `CommentStripper`, `CardFormatter` | password generation, timed clearing, the colour gate's comment stripper, card numbers |

Outcomes of what happens outside (a prompt, the network, the keyring, random numbers, a clock) are inputs, so every
statement holds whatever they are. Run `dafny verify dfyconfig.toml` here to check everything.

## What the proofs show about the code

- A soft lock that runs between a hard lock's clearing of the retained slot and its clearing of the user key leaves a
  retained key without a session anchor, so the session ceiling never wipes it (`RaceExamples.SoftLockInGapKeepsKey`).
- A quick unlock that reads the retained slot between a hard lock's new epoch and its clearing of the slot opens the vault
  after the lock, again without an anchor (`RaceExamples.RestoreInWindowUnlocks`). The runs in which every key is anchored,
  or about to be anchored or cleared, are exactly those without these two interleavings (`AnchorRaces.OrderlyExactly`);
  for one lock against one soft lock, or against one quick unlock, the outcome is stated exactly.
- A whole lock between an unlock's first write, of the user key, and its later ones leaves the vault flagged unlocked
  without a user key (`RaceExamples.LockInsideUnlockLosesKey`). `KeyRaces.KeyKeptExactly` names the two writes that can do
  so; soft locks and quick unlocks among themselves never do (`KeyRaces.GuardServes`).
- A login whose refresh token the keyring refuses drops the access token it held before, and leaves its own behind when
  clearing fails too, which is not looked at (`Login.FailedLogin`, `Login.TokenLeftBehind`). A login that gets no refresh
  token leaves an earlier one in place (`Login.GoodLogin`).
- An organisation listed twice can give an item's texts one key and its attachments another
  (`AttachmentKeys.TwoEntriesDisagree`); exactly when is `AttachmentKeys.ItemKeysAgree` and `KeyedItemKeysAgree`.
- The daemon makes a new clipboard manager for every copy and every lock, so each writes generation 2 and an old timer
  clears whatever the clipboard holds by then (`Clipboard.FreshManagers`); with one manager the generations work as meant.
- A suspension is certain to be reported from one nanosecond below three seconds (`Session.LongSuspendReported`).
- A quick unlock takes the vault's own key for a stale one, and wipes it, when there is no private key and all there is to
  probe are personal items without a key of their own and with an empty name (`RestoreChecks.OwnKeyPasses`, `RestoreChecks.UnnamedItemFails`).
- White space around a stored key's Base64 text is harmless except where it brings the text to 64 octets, which are then
  read as two raw halves (`Keys.PaddedTextParses`, `Keys.SpacesMislead`).
- The size rule of the preview cache says decrypted files are 50 to 65 octets smaller. That is so for the layout with a
  type octet; for the other two it is 49 to 64 (`Attachments.AcceptedBlob`).
- The clause that makes `stop` and `set_auto_lock` privileged asks for an unlocked vault, so it never refuses either
  (`Session.NeverRefused`).

## Model

| member | source | states |
|---|---|---|
| Primitives.XorIs | omawarden/src/crypto.rs:424-441 | a bit of two combined blocks is set where just one of them has it set |
| Texts.NumbersAre | omawarden/src/crypto.rs:279-281 | digits that fit 32 bits are a type number, with or without a plus sign |
| Texts.NotANumber | omawarden/src/crypto.rs:279-281 | nothing else is |
| Base64.Alphabet | omawarden/src/crypto.rs:256-261 | the sixty-four symbols of RFC 4648 in order |
| Base64.GroupBits | omawarden/src/crypto.rs:256-261 | three octets are four groups of six bits, most significant first |
| Base64.EncodeIs | omawarden/src/crypto.rs:256-261 | the padding of a last group of one or two octets |
| Base64.RoundTrip | omawarden/src/crypto.rs:256-261 | every octet string survives encoding and strict decoding |
| Base64.Canonical | omawarden/src/crypto.rs:286-310 | a text that decodes is the one encoding of what it decodes to, padding and hidden bits included |
| Base64.EncodeIsText | omawarden/src/crypto.rs:256-261 | encodings hold only alphabet symbols and padding, so no separator of a cipher string |
| Cbc.UnpadPad | omawarden/src/crypto.rs:242-246 | removing the padding gives the plaintext back |
| Cbc.PadUnpad | omawarden/src/crypto.rs:424-441 | what is accepted as padded is exactly a padding of the result |
| Cbc.PadIs | omawarden/src/crypto.rs:242-246 | one to sixteen octets, each their number, up to whole blocks |
| Cbc.SealAt | omawarden/src/crypto.rs:242-246 | every block is sealed after it is combined with the sealed block before it, the first with the vector |
| Cbc.OpenSeal | omawarden/src/crypto.rs:424-441 | chained decryption undoes chained encryption for any number of blocks |
| Cbc.OpenSealPadded | omawarden/src/crypto.rs:424-441 | the same through the padding, for every plaintext |
| Cbc.SealInto | omawarden/src/crypto.rs:242-248 | encryption into a buffer fails exactly when the padded text does not fit, fills the front and leaves the rest |
| Cbc.OpenInPlace | omawarden/src/crypto.rs:424-441 | decryption in place agrees with chained decryption and unpadding of the old contents |
| EncStrings.DecryptBuffer | omawarden/src/crypto.rs:349-416 | the decryption in a buffer gives the specified plaintext or the specified error, MAC rules of both types included |
| EncStrings.Encrypt | omawarden/src/crypto.rs:230-261 | the buffer with 32 spare octets always suffices, so the one failure is a key without a MAC half |
| EncStrings.ParseJoined | omawarden/src/crypto.rs:272-319 | any three octet strings printed with the separators parse back as they were |
| EncStrings.ParseSealed | omawarden/src/crypto.rs:272-319 | what encryption prints parses to its own vector, ciphertext and MAC |
| EncStrings.DecryptSealed | omawarden/src/crypto.rs:230-416 | for every plaintext, vector and key with a MAC half, parsing and decrypting the printed text gives the plaintext |
| EncStrings.RefuseSealed | omawarden/src/crypto.rs:349-416 | under another key whose MAC differs the text is refused with a MAC mismatch |
| EncStrings.ParseTwo | omawarden/src/crypto.rs:300-319 | two parts are a vector and a ciphertext without a MAC |
| EncStrings.ParseOne | omawarden/src/crypto.rs:286-298 | one part is a ciphertext alone |
| EncStrings.OpenTwo | omawarden/src/crypto.rs:349-416 | a legacy text of two parts opens whatever MAC half the key has; under type 2 it is refused, under other types not tried |
| EncStrings.DecryptChecks | omawarden/src/crypto.rs:349-416 | what is refused before anything is opened, a differing MAC under either type included |
| EncStrings.NotParsed | omawarden/src/crypto.rs:272-284 | a text without a dot or without a type number is refused |
| Keys.RawHalves | omawarden/src/crypto.rs:202-221 | the cipher's half comes first and the MAC's second, and only 32 and 64 octets are a key |
| Keys.RawRoundTrip | omawarden/src/crypto.rs:202-221 | a key of 32 or 64 octets survives its raw form |
| Keys.RawUnique | omawarden/src/crypto.rs:202-221 | a raw form that is accepted is the raw form of what it gives |
| Keys.TextRoundTrip | omawarden/src/crypto.rs:480-497 | a key survives its Base64 text |
| Keys.CarrierParses | omawarden/src/crypto.rs:480-497 | either carrier gives the key back; the text has 44 or 88 octets and is never taken for a raw key |
| Keys.PaddedTextParses | omawarden/src/crypto.rs:480-497 | with white space around it the text gives the key back if and only if the total is not 64 octets |
| Keys.SpacesMislead | omawarden/src/crypto.rs:480-497 | twenty spaces before the text of a key of 32 octets give a different key |
| Keys.ReplyRoundTrip | omawarden/src/daemon.rs:1227-1235 | the daemon's answer decoded by the client is the same key |
| Keys.DecryptWithMasterKey | omawarden/src/crypto.rs:142-200 | the loop over candidates gives the first that opens, or the last one's error, and refuses other key lengths |
| Keys.FirstOpeningAt | omawarden/src/crypto.rs:189-199 | the first candidate that opens decides, wherever it stands |
| Keys.CandidatesAre | omawarden/src/crypto.rs:151-187 | which keys are tried and in which order, with the label of each expansion |
| Keys.MasterKeyRoundTrip | omawarden/src/crypto.rs:151-165 | a value sealed under the direct expansions for "enc" and "mac" comes back |
| Keys.ExtractedRoundTrip | omawarden/src/crypto.rs:167-180 | so does one sealed under the expansions after extraction, when the direct MAC half does not verify it |
| Keys.LegacyRoundTrip | omawarden/src/crypto.rs:142-200 | a legacy value without MAC comes back if and only if no earlier candidate leaves a different plaintext |
| Attachments.HeadedRoundTrip | omawarden/src/crypto.rs:509-535 | packing with a type octet always decrypts back |
| Attachments.HeaderlessRoundTrip | omawarden/src/crypto.rs:499-555 | without the type octet it decrypts back exactly when the vector does not start with 2, and is refused otherwise |
| Attachments.TrailingRoundTrip | omawarden/src/crypto.rs:499-576 | with the MAC at the end it decrypts back unless it starts with 2 or also verifies as the headerless layout |
| Attachments.ShortBlobs | omawarden/src/crypto.rs:499-507 | an empty blob is an empty file; without a MAC half or below 48 octets nothing opens |
| Attachments.AcceptedBlob | omawarden/src/crypto.rs:499-576 | whatever is accepted has a length of 1 modulo 16 exactly when it starts with 2, a MAC over every other octet, and a plaintext shorter by the stated amount |
| Attachments.HeadedLength | omawarden/src/attachment.rs:911-919 | a headed blob is 49 octets and the padding longer than its plaintext |
| Attachments.SizeRuleSound | omawarden/src/attachment.rs:911-919 | the exact-size rule never rejects a decrypted file, and rejects the ciphertext unless it is one block long |
| Attachments.FetchRoundTrip | omawarden/src/attachment.rs:692-730 | key through the daemon's answer and blob together give the uploaded plaintext |
| Vault.DecryptSync | omawarden/src/api.rs:1393-2058 | the loops over folders, organisations and ciphers compute the specified list |
| Vault.OrganizationLoop | omawarden/src/api.rs:1427-1458 | the loop fills both maps, the last entry of an id winning, failures left out |
| Vault.UnreadableIsAbsent | omawarden/src/api.rs:1375-1387 | a text that does not parse, does not open or is not UTF-8 is absent |
| Vault.OrganizationKeyByType | omawarden/src/api.rs:1434-1456 | types 0 to 2 open under the user key, 3 to 6 under the private key, others not at all |
| Vault.RsaHashes | omawarden/src/crypto.rs:321-346 | the hash each RSA type is opened with first, and the other as second |
| VaultSealing.DecryptVault | omawarden/src/api.rs:1393-2058 | decrypting a vault sealed under the hierarchy gives exactly the live items, in order, with original texts, folder and organisation names |
| VaultSealing.OpenItemKey | omawarden/src/api.rs:1520-1542 | an item key comes back whether wrapped by the organisation key or by the user key |
| VaultSealing.OpenOrganization | omawarden/src/api.rs:1427-1458 | an organisation key comes back whether wrapped by the user key or by RSA |
| VaultSealing.ParseRsaText | omawarden/src/crypto.rs:286-298 | RSA texts of types 3 to 6 parse to their ciphertext, with or without a MAC part |
| VaultSealing.OpenPrivateKey | omawarden/src/api.rs:1412-1425 | the private key comes back from its wrapping |
| VaultSealing.OpenText | omawarden/src/api.rs:1375-1387 | a sealed text opens, a missing one stays missing, an empty one stays empty |
| VaultSealing.OpenHistory | omawarden/src/api.rs:1578-1606 | password history comes back in order, entries without a password dropped |
| VaultSealing.OpenContent | omawarden/src/api.rs:1544-1854 | every field of an item comes back, login, card, identity and key sections by item type |
| VaultSealing.LiveItemsKept | omawarden/src/api.rs:1460-1472 | whatever the keys, the result lists exactly the ciphers that are not deleted, in order |
| AttachmentKeys.LastKeyIs | omawarden/src/api.rs:1427-1458 | decryption of the vault uses the last entry of an organisation whose key opens, whatever entries without one follow |
| AttachmentKeys.BaseKeysAgreeExactly | omawarden/src/vault.rs:1162-1193 | the daemon's lookup and the decryption of the vault use one base key if and only if no entry gives a key or the last such key is the first entry's, or the user key where the first entry gives none |
| AttachmentKeys.BaseKeysAgree | omawarden/src/vault.rs:1162-1193 | for an organisation listed once they always do |
| AttachmentKeys.ItemKeysAgree | omawarden/src/vault.rs:1162-1207 | the texts and the attachments of an item without a key of its own lie under different keys if and only if some entry of its organisation gives a key and the last such key is neither the first entry's nor, where that gives none, the user's |
| AttachmentKeys.UnwrapWrapped | omawarden/src/vault.rs:1195-1207 | a wrapped key comes back where the base or the user key made the wrapping, and elsewhere the base key stands in for it |
| AttachmentKeys.KeyedItemKeysAgree | omawarden/src/vault.rs:1162-1207 | an item with a key of its own keeps one key if and only if the user key wrapped it, the base keys agree, or the base key that did not wrap it is the item's key |
| AttachmentKeys.TwoEntriesDisagree | omawarden/src/vault.rs:1134-1231 | a vault whose item is read under the current key of its organisation and whose attachment is looked up under the stale one |
| AttachmentKeys.ResolvesSealed | omawarden/src/vault.rs:1134-1231 | in a sealed vault the lookup finds the key an attachment was sealed with, its own or the item's |
| AttachmentKeys.OpenUploaded | omawarden/src/vault.rs:1134-1231 | from a sealed vault, the lookup and the blob together give the uploaded plaintext |
| Session.NeverRefused | omawarden/src/daemon.rs:1027-1047 | the requests never refused are exactly those outside the gate's list for a locked vault; stopping and setting the timeout are among them |
| Session.BootDeltaRange | omawarden/src/daemon.rs:334-357 | the truncated clock difference is the suspended time in seconds, or one more |
| Session.NoSuspendNoReport | omawarden/src/daemon.rs:359-371 | no suspension between two samples is never reported |
| Session.LongSuspendReported | omawarden/src/daemon.rs:359-371 | a suspension is reported at all clock readings if and only if it lasts three seconds less a nanosecond, or longer |
| SessionLaws.PasswordOpens | omawarden/src/daemon.rs:722-737 | the right password leaves the vault open with its key, both times set, no strikes, an occupied slot refreshed |
| SessionLaws.WrongPasswordChangesNothing | omawarden/src/daemon.rs:722-724 | a wrong one changes nothing |
| SessionLaws.PromptOpens | omawarden/src/daemon.rs:526-541 | an authorised prompt over a valid key leaves the vault open with that key and the anchor as it was |
| SessionLaws.PromptFails | omawarden/src/daemon.rs:491-546 | what every other prompt leaves, by answer and by what the check found |
| SessionLaws.NoPromptChangesNothing | omawarden/src/daemon.rs:455-489 | without setting, polkit, policy, locked vault or retained key nothing happens |
| SessionLaws.LockClears | omawarden/src/daemon.rs:687-697 | every field after a lock |
| SessionLaws.SoftLockMoves | omawarden/src/daemon.rs:705-719 | every field after a soft lock |
| SessionLaws.SettingIs | omawarden/src/daemon.rs:1133-1147 | the setting takes the value asked for, and off empties the slot |
| SessionLaws.CheckExactly | omawarden/src/daemon.rs:561-641 | the check locks hard, softly or not at all just when the times say so |
| SessionLaws.ScreenExactly | omawarden/src/daemon.rs:647-677 | what each signal does |
| SessionLaws.SuspendExactly | omawarden/src/daemon.rs:363-392 | a sample locks just when it is two seconds or more above the one before |
| SessionLaws.RefusedExactly | omawarden/src/daemon.rs:1027-1047 | the actions a locked vault refuses, by name, without any effect |
| SessionLaws.QuietActions | omawarden/src/daemon.rs:755-771 | ping, status, the agent's actions, codes and unknown actions leave every state as it is |
| SessionLaws.BusyActions | omawarden/src/daemon.rs:755-771 | listing, searching, reading, copying, generating, syncing and creating count as activity |
| SessionLaws.ChangingActions | omawarden/src/daemon.rs:755-771 | locking and changing settings do not, and unlocking only where it opens the vault |
| SessionLaws.TouchOverrides | omawarden/src/daemon.rs:755-760 | the client's own word goes first, both ways |
| SessionLaws.ActionsDo | omawarden/src/daemon.rs:1101-1199 | what every action leaves, by name |
| SessionLaws.PingPostponesNothing | omawarden/src/daemon.rs:615-638 | unlocked at 0 with a timeout of 600, pinged at 500, the vault locks at 700 |
| SessionRuns.OpenOutcome | omawarden/src/daemon.rs:526-547 | in any step a master password leaves the vault open with its key and a new session, a quick unlock with the retained key in the old one |
| SessionRuns.RunKeepsInv | omawarden/src/daemon.rs:228-268 | in every run the state agrees with history: last master key, its time, denials, activity, retention only while usable |
| SessionRuns.Strikes | omawarden/src/daemon.rs:491-530 | the counter is the denials since the last reset and at most 2; unavailable prompts change nothing; the third denial leaves no key |
| SessionRuns.CeilingAtTick | omawarden/src/daemon.rs:561-614 | after a check no key is older than the session lifetime since the last master unlock, however many quick unlocks came between |
| SessionRuns.AgeAtLastTick | omawarden/src/daemon.rs:561-614 | at the last check the key present now was within the lifetime |
| SessionRuns.CeilingBetweenTicks | omawarden/src/daemon.rs:792-808 | between checks a key outlives the ceiling by at most the watchdog period |
| SessionRuns.IdleAtTick | omawarden/src/daemon.rs:615-638 | after a check an unlocked vault was used within the idle timeout, by a touching request, an unlock, a sync or a completed SSH signature |
| SessionRuns.LooksAreInvisible | omawarden/src/daemon.rs:755-771 | leaving out all requests that do not touch, such as pings and status, gives the same state in every run |
| SessionRuns.LooksExactly | omawarden/src/daemon.rs:1020-1165 | those requests are exactly the ones that change nothing in any state, whatever happens outside |
| SessionRuns.StepAllowed | omawarden/src/daemon.rs:687-737 | every operation is a step of the three-phase machine |
| SessionRuns.LockOutcome | omawarden/src/daemon.rs:687-719 | a hard lock, a failed renewal and a soft lock while quick unlock is unusable leave neither an unlocked vault nor a retained key; any other soft lock retains exactly the key in use |
| SessionRuns.RefinesPhases | omawarden/src/daemon.rs:425-547 | every run refines the machine; opening takes the master password or an authorised prompt on a retained key, which is the last master unlock's; every unlock and every lock ends in the phase it should |
| SessionRuns.SuspendWipes | omawarden/src/daemon.rs:377-392 | in any run a reported suspension leaves no key |
| RestoreChecks.CheckRetainedKey | omawarden/src/vault.rs:495-625 | the check gives valid, stale or no account as specified: the private key decides, else the first personal item that opens, else the recorded wrapping |
| RestoreChecks.OtherPrivateKeyIgnored | omawarden/src/vault.rs:513-535 | a private key that is unreadable or asymmetrically wrapped decides nothing |
| RestoreChecks.OwnKeyPasses | omawarden/src/vault.rs:495-625 | the user key of a sealed vault passes if and only if there is a private key, a personal item with a key or a name that is not empty, or nothing to probe and the recorded wrapping |
| RestoreChecks.UnnamedItemFails | omawarden/src/vault.rs:495-625 | a sealed vault whose own key is taken for a stale one |
| RestoreChecks.StrangerFails | omawarden/src/vault.rs:495-625 | a key that verifies none of the texts it is checked against passes if and only if there is nothing to check and the recorded wrapping is the account's |
| Daemon.VaultManager.PurgeDecryptedState | omawarden/src/vault.rs:361-376 | purging clears flag and key, keeps the slot, counts only locks of an unlocked vault |
| Daemon.VaultManager.WipeQuickUnlock | omawarden/src/vault.rs:457-473 | a wipe empties the slot and starts a new epoch, nothing else |
| Daemon.VaultManager.HardLock | omawarden/src/vault.rs:380-391 | a hard lock leaves neither key nor slot |
| Daemon.VaultManager.SoftLock | omawarden/src/vault.rs:395-441 | the user key moves to the slot; with nothing to move an earlier key stays |
| Daemon.VaultManager.Unlock | omawarden/src/vault.rs:677-735 | unlocking refreshes an occupied slot and no empty one |
| Daemon.VaultManager.QuickUnlockRestore | omawarden/src/vault.rs:481-675 | a restore puts back exactly the retained key, keeps the slot, and wipes it only when stale |
| Daemon.DaemonState.Lock | omawarden/src/daemon.rs:687-697 | one step of the lock |
| Daemon.DaemonState.SoftLock | omawarden/src/daemon.rs:705-719 | one step of the soft lock, hard when quick unlock is unusable |
| Daemon.DaemonState.Unlock | omawarden/src/daemon.rs:722-737 | one step of the unlock: the right password opens the vault and sets anchor, time and strikes, a wrong one changes nothing |
| Daemon.DaemonState.PerformQuickUnlock | omawarden/src/daemon.rs:451-547 | one step of the quick unlock; it succeeds exactly on an authorised prompt over a valid retained key, restores that key and leaves the anchor |
| Daemon.DaemonState.SetQuickUnlock | omawarden/src/daemon.rs:1133-1147 | disabling wipes the slot |
| Daemon.DaemonState.SyncWithClient | omawarden/src/daemon.rs:743-752 | a successful sync counts as activity; a failed renewal locks the vault and keeps anchor and strikes |
| Daemon.DaemonState.CreateSshKey | omawarden/src/daemon.rs:1163-1199 | creating a key item can lock the vault through a failed renewal, and counts for nothing else |
| Daemon.DaemonState.RecordSignature | omawarden/src/ssh_agent.rs:777-781 | a signature for an unlocked vault counts as activity |
| Daemon.DaemonState.CheckAutoLock | omawarden/src/daemon.rs:561-641 | one step of the check, with its answer |
| Daemon.DaemonState.CheckScreenLock | omawarden/src/daemon.rs:647-677 | one step of the check: sleep locks hard, a screen lock locks an unlocked vault softly |
| Daemon.DaemonState.CheckSuspendDrift | omawarden/src/daemon.rs:377-392 | one step of the check; a report leaves no key |
| Daemon.DaemonState.WatchdogPass | omawarden/src/daemon.rs:792-808 | a round of the loop is the three checks in order |
| Daemon.DaemonState.Act | omawarden/src/daemon.rs:1101-1199 | each arm that changes the session is one step |
| Daemon.DaemonState.HandleClient | omawarden/src/daemon.rs:1024-1051 | a request is one step; refusal of privileged actions comes before activity |
| Daemon.DaemonState.Serve | omawarden/src/daemon.rs:792-823 | the object after any requests, agent calls and rounds is in the state the run gives |
| Daemon.RunDaemon | omawarden/src/daemon.rs:773-826 | a daemon started afresh keeps the invariant of all runs |
| LockRaces.UnlockedHasTime | omawarden/src/daemon.rs:687-737 | for any number of threads, at rest an unlocked vault has its unlock time |
| LockRaces.StrikesAtRest | omawarden/src/daemon.rs:470-530 | for any number of threads there is one prompt at a time and never three strikes at rest |
| CallsAlone.LockAlone | omawarden/src/daemon.rs:687-697 | uninterrupted, the single writes of a lock come to the atomic lock, with one new epoch and nobody left holding anything |
| CallsAlone.HardLockAlone | omawarden/src/vault.rs:380-391 | the same for the vault's hard lock |
| CallsAlone.SoftLockAlone | omawarden/src/daemon.rs:705-719 | the same for a soft lock, usable or not |
| CallsAlone.UnlockAlone | omawarden/src/daemon.rs:722-737 | the same for an unlock |
| CallsAlone.QuickUnlockAlone | omawarden/src/daemon.rs:451-547 | the same for an authorised quick unlock, by what the check finds |
| CallsAlone.DeniedAlone | omawarden/src/daemon.rs:491-524 | the same for a prompt denied or unavailable |
| CallsAlone.WipeAlone | omawarden/src/vault.rs:457-473 | the same for a wipe by request |
| CallsAlone.AloneInSystem | omawarden/src/daemon.rs:687-737 | moves of one thread in a row are its writes alone and leave the other threads where they are |
| AnchorRaces.AnchorKeptExactly | omawarden/src/daemon.rs:687-737 | a write by any thread keeps every key anchored or taken care of if and only if it is not one of the two, made with no anchor set or coming |
| AnchorRaces.OrderlyExactly | omawarden/src/daemon.rs:687-737 | the runs in which that holds throughout are exactly the runs without the two interleavings |
| AnchorRaces.InvariantAtRest | omawarden/src/daemon.rs:687-737 | while no call is under way it says just that a key in memory has its session anchor |
| AnchorRaces.KeyHasAnchor | omawarden/src/daemon.rs:687-737 | in every such run, at rest a key in memory has its session anchor |
| AnchorRaces.WholeIsOrderly | omawarden/src/vault.rs:380-391 | runs whose vault calls are not interrupted have neither interleaving |
| AnchorRaces.WholeCallsKeepAnchor | omawarden/src/daemon.rs:687-737 | with each vault call one step, any interleaving of the session fields' writes keeps the law |
| CeilingRaces.CeilingAtCheck | omawarden/src/daemon.rs:561-584 | after any orderly interleaving and a check made at rest, no key is older than the session lifetime since the last master unlock |
| CeilingRaces.CeilingUntilNext | omawarden/src/daemon.rs:561-584 | whatever orderly interleaving follows, until the next check a key at rest is at most the period over the limit |
| CeilingRaces.RunYoung | omawarden/src/daemon.rs:687-737 | a run goes the same way whether anchors from before a moment are counted or not |
| CeilingRaces.FreeAtRest | omawarden/src/vault.rs:457-473 | for any number of threads nobody holds the restore guard at rest |
| KeyRaces.KeyKeptExactly | omawarden/src/vault.rs:361-441 | a write keeps flag and user key together, or in the hands of a call that will settle them, if and only if it is not a late clear of the key or a late flag with no lock left to clear the flag |
| KeyRaces.MatchedExactly | omawarden/src/vault.rs:361-441 | the runs in which that holds throughout are exactly the runs without such a write |
| KeyRaces.MatchAtRest | omawarden/src/vault.rs:361-441 | while no call is under way it says just that the vault is unlocked if and only if it has its key |
| KeyRaces.KeyMeansUnlocked | omawarden/src/vault.rs:677-735 | for any number of threads and any interleaving, at rest a user key is one of an unlocked vault |
| KeyRaces.GuardServes | omawarden/src/vault.rs:395-441 | soft locks, quick unlocks and wipes in any interleaving leave the vault unlocked if and only if it has its key |
| RaceExamples.LockInsideUnlockLosesKey | omawarden/src/vault.rs:677-735 | a run that leaves the vault flagged unlocked without a user key |
| RaceExamples.SoftLockInGapKeepsKey | omawarden/src/vault.rs:380-391 | a run that leaves a retained key without an anchor |
| RaceExamples.RestoreInWindowUnlocks | omawarden/src/vault.rs:481-675 | a run that leaves the vault unlocked without an anchor after a lock |
| RaceExamples.LockAgainstSoftLock | omawarden/src/daemon.rs:687-719 | however one lock and one soft lock interleave, a key stays retained if and only if it was moved in the gap |
| RaceExamples.LockAgainstQuickUnlock | omawarden/src/daemon.rs:526-547 | however one lock and one quick unlock interleave, the vault is open or holds its key if and only if that write came after the lock's, which takes a read in the window |
| Login.Client.PostPrelogin | omawarden/src/api.rs:895-921 | parameters are asked for once more at the fallback address just after a 404 |
| Login.Client.PostToken | omawarden/src/api.rs:923-943 | the token post falls back just after a 404 and only off the cloud |
| Login.Client.RequestToken | omawarden/src/api.rs:1023-1190 | result and requests of the token stage, one retry at most |
| Login.Client.LoginPassword | omawarden/src/api.rs:945-1190 | result and requests of one API login |
| Login.Keyring.StoreAccess | omawarden/src/auth.rs:574-590 | a store that works replaces the access token, one that fails changes nothing |
| Login.Keyring.StoreRefresh | omawarden/src/auth.rs:592-597 | the same for the refresh token |
| Login.Keyring.ClearAccess | omawarden/src/auth.rs:598-599 | a clear that works removes the access token, one that fails changes nothing |
| Login.StoreTokens | omawarden/src/auth.rs:560-646 | the writes to the keyring in order, the clear after a refused refresh token, and the sync give the specified end |
| Login.LoginPassword | omawarden/src/auth.rs:367-671 | the recursive login ends, and does what its first API login and at most one more make of it, requests and keyring alike |
| Login.TokenForms | omawarden/src/api.rs:978-1158 | what every token request carries: the first form by the codes given, the second with the code for a new device or with provider 1, and none in other cases |
| Login.TokenResult | omawarden/src/api.rs:1023-1190 | the tokens of the first or second reply, or what the first one asks for |
| Login.PreloginFirst | omawarden/src/api.rs:945-958 | the parameters come first, once more after a 404, and nothing follows without them |
| Login.SecurityKeyExactly | omawarden/src/auth.rs:411-437 | when a security key is asked, and that its token goes as a code for provider 7 |
| Login.SucceedsExactly | omawarden/src/auth.rs:560-671 | a login succeeds just when tokens came and the keyring took them |
| Login.ApiLoginBound | omawarden/src/api.rs:945-1190 | one API login: one prelogin, one token post or with a code two, no form with both codes, at most six requests |
| Login.LoginBound | omawarden/src/auth.rs:367-671 | a login sends at most eleven requests, and seven with a code; it syncs and saves just when it succeeds |
| Login.FailedLogin | omawarden/src/auth.rs:560-611 | a failed login leaves the keyring as it was unless the refresh token was refused; then the earlier access token is gone, and its own stays if and only if the clear failed |
| Login.GoodLogin | omawarden/src/auth.rs:560-611 | a successful login leaves its access token, and an earlier refresh token when it got none |
| Login.TokenLeftBehind | omawarden/src/auth.rs:592-611 | a failed login that leaves its access token |
| Login.BoundReached | omawarden/src/auth.rs:399-462 | a server that makes a successful login take eleven requests |
| Generator.FilterCharset | omawarden/src/generator.rs:107-117 | filtering keeps exactly the characters that are not ambiguous |
| Generator.PoolsHaveCharacters | omawarden/src/generator.rs:134-163 | a pool has characters exactly when its set is enabled, so the third refusal never happens |
| Generator.PoolsNeverEmpty | omawarden/src/generator.rs:167-189 | nothing is drawn from an empty pool |
| Generator.ShuffleKeeps | omawarden/src/generator.rs:191-192 | the shuffle keeps the multiset |
| Generator.ShuffleReaches | omawarden/src/generator.rs:191-192 | every order of the characters is one the shuffle can give |
| Generator.PasswordAcceptable | omawarden/src/generator.rs:119-192 | every password meets the options: the exact length, the ranges of the enabled sets without the seven ambiguous characters, the digits asked for as far as they fit, special characters as far as they then fit, a letter of each case as far as there is room |
| Generator.PasswordReachable | omawarden/src/generator.rs:119-192 | every password that meets them is given by some random numbers |
| Generator.PasswordsAreTheAcceptable | omawarden/src/generator.rs:119-192 | the passwords that can be generated are exactly those |
| Generator.PoolIs | omawarden/src/generator.rs:13-17 | the characters of each pool |
| Generator.Shuffle | omawarden/src/generator.rs:191-192 | the in-place shuffle computes the specified order |
| Generator.GeneratePassword | omawarden/src/generator.rs:119-192 | the loops give the specified password, which meets the options, or the refusal for a length outside 5 to 128 or for no set |
| Clipboard.TimerClears | omawarden/src/clipboard.rs:142-165 | among any managers a timer clears exactly when the last writer of the file has counted as far as the timer's manager had |
| Clipboard.OneManager | omawarden/src/clipboard.rs:67-72 | with one manager a timer clears if and only if no timed copy or clear came since |
| Clipboard.FreshManagers | omawarden/src/daemon.rs:1290-1305 | with a manager made for every call every timer clears, whatever was copied since |
| Clipboard.FileHolds | omawarden/src/clipboard.rs:67-72 | the file holds one more than the count of its last writer |
| Clipboard.CopyAndClear | omawarden/src/clipboard.rs:82-165 | what a copy, a clear and a timer leave in counter, file and clipboard |
| Clipboard.ClipboardManager.constructor | omawarden/src/clipboard.rs:25-35 | a manager starts at generation 1 |
| Clipboard.ClipboardManager.NextGeneration | omawarden/src/clipboard.rs:67-72 | counter and file go up together |
| Clipboard.ClipboardManager.CopyText | omawarden/src/clipboard.rs:74-140 | a copy starts a timer exactly when it worked, is sensitive and has a positive time |
| Clipboard.ClipboardManager.ClearText | omawarden/src/clipboard.rs:206-228 | a clear counts even when it fails |
| Clipboard.ClipboardManager.TimerGoesOff | omawarden/src/clipboard.rs:151-165 | a timer clears on a match and changes nothing else |
| CommentStripper.LinesAgree | scripts/check-hardcoded-colors.py:27-58 | for every text, stripping line by line with the flag equals one pass of an automaton over single characters |
| CommentStripper.LineAgrees | scripts/check-hardcoded-colors.py:36-55 | one line with the flag equals the automaton up to the end of that line |
| CommentStripper.StripOneLine | scripts/check-hardcoded-colors.py:37-55 | the inner loop computes a line's code and the flag after it |
| CommentStripper.StripComments | scripts/check-hardcoded-colors.py:27-58 | every line comes out once, in order, with its number and the automaton's code |
| CardFormatter.DigitsStep | components/CardFormatter.js:7-10 | cleaning keeps every digit and drops everything else |
| CardFormatter.SegmentsAre | components/CardFormatter.js:24-60 | 4-6-5 for fifteen digits of American Express, 4-6-4 for fourteen of Diners Club, by prefix or brand, fours otherwise |
| CardFormatter.ShortForms | components/CardFormatter.js:66-97 | up to four digits, and none, revealed and masked |
| CardFormatter.SegmentsSum | components/CardFormatter.js:24-60 | segments are positive and sum to the digit count |
| CardFormatter.PartsAreSegments | components/CardFormatter.js:71-84 | the parts have the lengths of the segments, so nothing is left over |
| CardFormatter.RevealedKeepsDigits | components/CardFormatter.js:66-84 | cleaning a formatted number gives back its digits |
| CardFormatter.RevealedTwice | components/CardFormatter.js:66-84 | formatting a formatted number changes nothing |
| CardFormatter.MaskedAgainstRevealed | components/CardFormatter.js:91-124 | above four digits the masked form has the same spaces and the last four digits, and bullets elsewhere |
| CardFormatter.GetCardSegments | components/CardFormatter.js:24-60 | the loop gives the specified segments |
| CardFormatter.Partition | components/CardFormatter.js:71-84 | the walk over the segments gives the specified parts, guards included |
| CardFormatter.FormatRevealed | components/CardFormatter.js:66-84 | the function gives the specified form, the short and the empty cases included |
| CardFormatter.FormatMasked | components/CardFormatter.js:91-124 | the function gives the specified masked form, all bullets up to four digits |

## Left out

- Sockets, peer credentials, subprocesses, HTTP, file permissions, notifications: outcomes are inputs.
- AES, HMAC, HKDF, RSA, Argon2id, PBKDF2, UTF-8 and the random generator themselves: functions with the laws in `Primitives.Library`.
- Secrecy, timing, memory locking and poisoned mutexes.
- `storage.rs`, `ssh_agent.rs`, `polkit.rs`, `webauthn.rs`, `totp.rs`, the SSH key and TOTP actions, passphrases and entropy figures.
- Vault.DecryptSync: leaves out JSON alias names, subtitles, search text, metadata derived from SSH key texts and the choice of where password history is stored.
- VaultSealing.OpenContent: lists the encrypted members of a card, identity or key object in reading order instead of by name.
- In the daemon: clearing the clipboard and previews on a lock, the client context of a request, and setting the session lifetime, which is fixed per run.
- Daemon.VaultManager.QuickUnlockRestore: takes the outcome of the check as an input; what the check finds is proved in `RestoreChecks`, and its epoch comparison matters only in `LockRaces`.
- Daemon.DaemonState.PerformQuickUnlock: has no busy guard and no second look at the slot, since nothing comes between its steps; `LockRaces` has both.
- Items that creating a key adds to the decrypted list; the session state of the model has no list of items.
- KeyRaces.KeyKeptExactly: says nothing of the list of decrypted items, which unlock and restore write just before the key.
- CeilingRaces.CeilingAtCheck: the check reads and locks while no other call is under way; a check taken apart itself is not modelled.
- AnchorRaces.KeyHasAnchor: one way at the end of a run, because a later unlock or wipe may make up for an earlier lost anchor; whether one was lost on the way is stated exactly by AnchorRaces.OrderlyExactly.
- AnchorRaces.WholeCallsKeepAnchor: says nothing of a soft lock racing a change of the setting; retention only while usable is claimed for atomic operations.
- LockRaces.UnlockedHasTime: a quick unlock may start in more states there than the code's first checks allow, so it covers more runs than the code has.
- Login.LoginPassword: a store or clear that reports failure is taken to have changed nothing, codes are given with surrounding white space removed, and the keyring's first availability check is taken to give the same answer in the nested call.
- Session.LongSuspendReported: both clocks are read at the same instant.
- Clipboard.TimerClears: the generation file can always be written and the counter does not reach 64 bits; the detached worker of the command line is not modelled.
- Generator.Shuffle: the order of swaps is that of the rand library, version 0.8, which is not part of the repository.
- CommentStripper.LinesAgree: neither side knows string literals, as the script does not, so slashes in a string count as a comment.
- CardFormatter.GetCardSegments: whether the brand's name is one of the two special ones is an input.
