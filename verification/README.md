# BifroSSH, verified

A Dafny model of the parts of BifroSSH that can lose something: host keys, the vault's one key, the vault itself,
terminal output, imports, and the bytes of the formats the app reads and writes. Each module follows one part of the
program; a method is the code, a function or predicate is what it is measured against, and the lemmas say what the
program promises.

| module | what it is about |
|---|---|
| `Glob` | the `*`/`?` matcher, written twice |
| `TextLines`, `Lists`, `Decimal`, `Bytes`, `Wrappers` | lines and words of a text, lists, numbers as text, bytes, options |
| `KnownHosts`, `HostPorts`, `HostImport`, `HostVerify` | the known_hosts files, a host and its port as one name in them, imports into them, and the verifier that uses them |
| `Keystore` | the master key, the ways to it, and the PIN |
| `Store` | saving the vault beside its backup and recovering it |
| `Utf8`, `Recording` | decoding a stream of bytes as it is recorded |
| `AgentFraming` | agent requests out of a channel's packets |
| `SessionOutput`, `Handover` | what a session's output goes through, and a terminal changing windows |
| `Merge`, `Backup` | importing an export |
| `JumpChain` | a `ProxyJump` line as links between servers |
| `Calendar`, `Stamp` | the date arithmetic and the names of recordings |
| `Playback` | the timeline of a recording |
| `Ppk`, `Socks5` | PuTTY keys turned into OpenSSH ones, and the SOCKS5 server side |
| `History` | the commands a host remembers |

Ciphers, key derivation, hashes and base64 are ideal: a sealed blob opens with its own key and no other, base64 reads
back what it wrote, and a hashed host name is a yes-or-no question put to the outside. Clocks, salts, the keyring's
answers, the user's answers and the moment the program is stopped are parameters, and the theorems are about all of
them. Numbers are unbounded except where a format gives them a width: lengths on the wire are cast to four bytes and
keep what fits.

## Where the code does not do what it says

Each of these has a lemma that gives the failing input, for one case or for every one, and a lemma with the exact
condition under which the promise holds.

- Both matchers test for a literal hit before they test for a star, so a star in the *text* swallows a star in the
  pattern: `*b` is refused on `*ab`. They are right about a text exactly when it has no star, and about a pattern
  exactly when it has none (`Glob.RefusedOnText`, `Glob.DecidedTexts`, `Glob.DecidedPatterns`). What they accept
  always matches.
- A known_hosts line with a newline inside it is judged as one line and read back as two, so each import can add it
  again (`HostImport.AddedAgain`). An export imports twice as once into every file exactly when each line that is the
  first with its key would be found in a file of its own (`HostImport.ImportTwiceExactly`).
- Replacing or forgetting a host's key takes the whole line, and with it the key of any other host the line is for
  (`KnownHosts.SharedLineGoes`). Answers about another host stay when no line that goes holds a key of it
  (`KnownHosts.RemovedElsewhere`, `KnownHosts.ReplacedElsewhere`); what is answered otherwise is settled by the first
  line that stays (`KnownHosts.MatchOutlivesExactly`).
- An import clears a server that jumps to itself, and no longer circle. Two servers of an export that are the same
  become one, which can close a circle that is nowhere in the export (`Backup.SameServersCloseACircle`); so can a server
  that comes for one here whose jump led nowhere (`Backup.AwaitedCloseACircle`). Short of that last case there is a
  circle afterwards exactly when there was one here or the servers added make one (`Backup.CirclesExactly`).
- `unresolved_refs` does not count a jump that leads a server to itself, though it is cleared
  (`Backup.SelfJumpIsNotCounted`, `Backup.UnresolvedCounts`).
- The preview says the same duplicates as the import skips exactly when no two new records of the export are the same;
  otherwise it says fewer (`Merge.PreviewFallsShort`, `Merge.PreviewExactly`, `Backup.PreviewAgrees`).
- A ZMODEM header around a flush of fewer than four bytes goes by unseen. Only flushes between the first and the last
  can hide one (`SessionOutput.HiddenHeader`, `SessionOutput.ExactlyWhenRight`).
- The comments on `ssh_hold` say output and marker go out under one lock. `flush` lets the lock go before it emits, so
  a hold can land between: the marker overtakes the output, the screen is taken without it, and the new terminal never
  shows it (`Handover.HoldInTheGap`). A wait that runs out has the same effect (`Handover.MarkerAstray`). After a
  failed move the terminal does not keep live output back until the reply is there, and shows it first
  (`Handover.FailedMove`, `Handover.ReplyOvertaken`). `Handover.WholeExactly` says which steps keep the promise.
- A stop between the rename and the copy of a recovery leaves no `data.json`, which the next launch takes for a first
  run (`Store.LoadAfterRecoverStop`); two saves later nothing of the vault that was there is left
  (`Store.PassedOver`). Short of that and of copies cut short, the version last saved or read is on the disk, or the one
  before it (`Store.AlwaysRecent`). A recovery whose copy is cut short, followed by a save that is stopped, leaves no
  whole version (`Store.CutShortThenSaved`, and from the first launch on `Store.EverythingIsLost`); after a launch that
  recovered, saves are safe exactly when its copy was not cut short (`Store.LaunchIsSafeExactly`).

Some promises hold in use and have an exact edge, which is stated too: stamps sort as text up to the end of the year
9999 (`Stamp.StampsSort`), the bytes under a PPK's MAC tell its fields apart below four gigabytes
(`Ppk.TellsApartExactly`), cutting pauses keeps what is shown at an event for every limit above zero
(`Playback.SameShownExactly`), a host and port come back from their name in known_hosts unless the host is a name in
brackets itself (`HostPorts.SpecComesBack`), and a refused host key leaves the files alone if it names its type
(`HostVerify.RefusalLeavesFiles`), as every key off the wire does.

## Model

| member | source | states |
|---|---|---|
| Glob.GlobMatch | src-tauri/src/hostkeys.rs:214-240 | the loop with its two cursors and one remembered star ends, and answers as the walk it makes does |
| Glob.WildcardMatch | src-tauri/src/sshconfig.rs:99-124 | the second copy answers as the same walk: the two compute one relation |
| Glob.AcceptedMatches | src-tauri/src/hostkeys.rs:214-240 | whatever is accepted does match, taking `*` as any run and `?` as any one character |
| Glob.AcceptsIsMatches | src-tauri/src/hostkeys.rs:214-240 | with no star in common the greedy walk with one backtracking point finds every match there is |
| Glob.Reflexive | src-tauri/src/hostkeys.rs:214-240 | every string is accepted by itself taken as a pattern |
| Glob.RefusedOnText | src-tauri/src/hostkeys.rs:221-223 | for every text with a star in it, a pattern that matches it and is refused |
| Glob.RefusedByPattern | src-tauri/src/hostkeys.rs:221-223 | for every pattern with a star in it, a text that it matches and is refused |
| Glob.DecidedTexts | src-tauri/src/hostkeys.rs:214-240 | every pattern is decided as its wildcards mean on a text if and only if the text has no star |
| Glob.DecidedPatterns | src-tauri/src/hostkeys.rs:214-240 | a pattern is decided as its wildcards mean on every text if and only if it has no star |
| KnownHosts.MatchHost | src-tauri/src/hostkeys.rs:242-269 | a field matches when one pattern accepts the host and no negated one does; hashed fields are asked as a whole |
| KnownHosts.ListMeans | src-tauri/src/hostkeys.rs:258-268 | a list written with commas means a name without a star if and only if some plain pattern of it does, by what wildcards mean, and no pattern behind a `!` does |
| KnownHosts.TypeIsRead | src-tauri/src/hostkeys.rs:112-121 | a key that starts with a text of at most 64 bytes behind its length has that text as its type |
| KnownHosts.Keeper.CheckHost | src-tauri/src/hostkeys.rs:271-336 | the pass over both files with its two accumulators gives the declared priority, and writes only the mirror of an OpenSSH match |
| KnownHosts.StatusMeans | src-tauri/src/hostkeys.rs:271-336 | Revoked and Match are the first line of this host with this very key that is no CA line; Mismatch the first unmarked line of the type, always a different key; OtherType the first of another; Unknown none of them |
| KnownHosts.LinesThatCount | src-tauri/src/hostkeys.rs:284-323 | a line settles a key exactly when it is for the host, holds just this key and is no CA line, and is a mismatch or another type exactly when it is unmarked, for the host, and its key names the same type or another |
| KnownHosts.EntriesAreWhereTheySay | src-tauri/src/hostkeys.rs:171-212 | the entries of a file are its readable lines under their own numbers, and a comment is none |
| KnownHosts.VerdictIs | src-tauri/src/hostkeys.rs:284-323 | whether a key is matched or revoked depends on what the lines say and on nothing about where they stand, our own file first |
| KnownHosts.Keeper.LearnHost | src-tauri/src/hostkeys.rs:401-418 | refuses exactly a key that does not name its type, and adds no line that is already recorded |
| KnownHosts.LearntExactly | src-tauri/src/hostkeys.rs:401-418 | learning changes the file if and only if the key names its type and no unmarked line for the host holds it already, letter for letter |
| KnownHosts.Keeper.AppendLines | src-tauri/src/hostkeys.rs:426-441 | an unfinished last line is finished before anything is added |
| KnownHosts.AppendedReads | src-tauri/src/hostkeys.rs:426-441 | what a file says after an append is what it said and what the lines added say, however it ended and whatever its line ends |
| KnownHosts.Keeper.RemoveLines | src-tauri/src/hostkeys.rs:455-511 | rewrites the file without the lines that go, not at all if none does, and says how many went |
| KnownHosts.RemovedReads | src-tauri/src/hostkeys.rs:466-509 | the rewritten file says everything else, in order, marked lines among it |
| KnownHosts.Keeper.ForgetHost | src-tauri/src/hostkeys.rs:450-452 | removes the host's unmarked lines of every type |
| KnownHosts.ForgottenLines | src-tauri/src/hostkeys.rs:450-452 | afterwards the host has only marked lines, and every marked line and every line that is not this host's is still there |
| KnownHosts.ForgottenIsNew | src-tauri/src/hostkeys.rs:450-452 | for every key and OpenSSH file, a host forgotten in our file is what OpenSSH's file alone says it is, unless a marked line of ours decides |
| KnownHosts.Keeper.ReplaceHost | src-tauri/src/hostkeys.rs:444-448 | removes the host's keys of this type, then records this one |
| KnownHosts.LearntIsFound | src-tauri/src/hostkeys.rs:401-418 | after learning, the next check matches in our file if and only if no revocation stands first there and the text written, read as a file, says this is the host's key; for any host name |
| KnownHosts.ReplacedIsFound | src-tauri/src/hostkeys.rs:444-448 | the same after replacing, with the marked lines that are left |
| KnownHosts.ReplacedKeepsTheRest | src-tauri/src/hostkeys.rs:443-448 | replacing takes the host's unmarked keys of that type and no other line, and any such line afterwards is of the text written for the new key |
| KnownHosts.PlainServes | src-tauri/src/hostkeys.rs:390-399 | for a host name without blanks, commas or a leading `#`, `@`, `!` or `\|1\|`, the text written is one line that says this key is the host's |
| KnownHosts.LearntElsewhere | src-tauri/src/hostkeys.rs:401-418 | learning such a host without wildcards changes no answer about any other host and any key |
| KnownHosts.RemovedElsewhere | src-tauri/src/hostkeys.rs:455-511 | removing one host's keys changes no answer about another host and any key, line numbers aside, when no line that goes holds a key of the other |
| KnownHosts.ReplacedElsewhere | src-tauri/src/hostkeys.rs:443-448 | nor does replacing the key of a plain host without wildcards |
| KnownHosts.MatchOutlivesExactly | src-tauri/src/hostkeys.rs:455-511 | after a removal any key of any host is matched or revoked in our own file as the first line for it that stays says, failing one as OpenSSH's file says, and otherwise by neither |
| KnownHosts.SharedLineGoes | src-tauri/src/hostkeys.rs:443-452 | for every key: with one line for two hosts, forgetting or replacing the first takes the second from matched to undecided |
| HostPorts.SpecComesBack | src-tauri/src/hostkeys.rs:144-150 | reading the name of a host and port the way `split_host_spec` (src-tauri/src/hostkeys.rs:688-697) does gives both back, but for a bare host that is itself a name in brackets with a port |
| HostPorts.SpecsDiffer | src-tauri/src/hostkeys.rs:143-150 | other hosts and other ports have other names, and on port 22 the name is the host |
| HostPorts.LearntOnOnePort | src-tauri/src/hostkeys.rs:401-418 | learning an ordinary host on one port changes no answer about another host or the same one on another port |
| HostPorts.RemovedOnOnePort | src-tauri/src/hostkeys.rs:455-511 | nor does removing its keys when the lines that go name it alone, as those written here do |
| HostPorts.OnlyThatPort | src-tauri/src/hostkeys.rs:271-418 | learnt into no files at all, a key matches for its host and port, and every other host, and the same host on every other port, is unknown |
| HostImport.MergeLines | src-tauri/src/hostkeys.rs:626-665 | each line is judged against the file and the lines accepted before it |
| HostImport.ImportLines | src-tauri/src/hostkeys.rs:673-685 | what is proposed is appended; nothing proposed, nothing touched |
| HostImport.MergedHolds | src-tauri/src/hostkeys.rs:626-665 | what is held afterwards is what was held and what the added lines say; the count is of those |
| HostImport.MergedKeys | src-tauri/src/hostkeys.rs:650-661 | every readable key of the export is held, and never a second line for a marker, host field and type that is held |
| HostImport.OneOfEachType | src-tauri/src/hostkeys.rs:650-661 | for every readable line one of the same marker, host field and type is held in the end, and no two that came have all three alike |
| HostImport.HeldAreLines | src-tauri/src/hostkeys.rs:611-632 | what a file holds are its lines, with the type the key itself names |
| HostImport.ReportIsExact | src-tauri/src/hostkeys.rs:637-661 | the conflicts are the hosts of the lines whose key is held and is another, all of them in order; every other line that is not passed over is added or skipped |
| HostImport.ImportTwice | src-tauri/src/hostkeys.rs:673-685 | when each line that was added says in the file what it was judged as, importing again changes nothing, skips what was added and reports the same conflicts |
| HostImport.OneLineSaysItself | src-tauri/src/hostkeys.rs:637-660 | every line without a newline inside is such a line, carriage returns and blanks included |
| HostImport.ImportTwiceExactly | src-tauri/src/hostkeys.rs:673-685 | for any lines, importing them a second time changes no file at all if and only if each line that is the first of them with its key is found under that key in a file of its own |
| HostImport.NotTwice | src-tauri/src/hostkeys.rs:673-685 | for a line that is not found there, the file holding all other keys of the export is changed again |
| HostImport.AddedAgain | src-tauri/src/hostkeys.rs:637-660 | a line with a newline inside it that is added each time |
| HostImport.ImportKeepsVerdicts | src-tauri/src/hostkeys.rs:673-685 | a key our own file vouches for or revokes stays so whatever is imported |
| HostImport.OwnExportAddsNothing | src-tauri/src/hostkeys.rs:580-591 | taking a file's own export back in adds nothing to it |
| HostVerify.Verifier.Verify | src-tauri/src/hostverify.rs:99-254 | the answer, the recorded reason and our own file, for every policy, answer and pair of files |
| HostVerify.RefusalLeavesFiles | src-tauri/src/hostverify.rs:99-254 | a refusal always has a reason, and for a key that names its type it leaves the files unchanged |
| HostVerify.NamelessRefusal | src-tauri/src/hostverify.rs:172-181 | for any bytes as a key: a refusal changes our file if and only if the user chose to replace by a key that names no type and our file has an unmarked line of this host |
| HostVerify.AcceptedOnlyIf | src-tauri/src/hostverify.rs:107-252 | exactly who is let in; a revoked key never, a changed one only by the user's own word to replace it |
| HostVerify.ReasonsAre | src-tauri/src/hostverify.rs:99-254 | each reason for a refusal is given in exactly the case it names, and only a replaced key takes an earlier one back |
| HostVerify.AcceptanceIsRemembered | src-tauri/src/hostverify.rs:178-239 | an acceptance for one session writes nothing; any other of a key our own file does not match, one OpenSSH's file has among them, is a match there at the next look if and only if the text written says what it should, for any host name |
| HostVerify.AcceptedIsKnownNextTime | src-tauri/src/hostverify.rs:99-254 | for a plain host whoever was let in and not just once is let in next time under any policy, with nothing written |
| Keystore.Vault.Unlock | src-tauri/src/keystore.rs:348-382 | keyring first, the file where they disagree, then the passphrase; changes nothing |
| Keystore.UnlockExactly | src-tauri/src/keystore.rs:343-382 | on any disk and any keyring: the file's key whenever there is one, whatever the keyring holds; without a file exactly the key of the keyring's blob when the keyring opens it; else the passphrase is asked for exactly when there is one, and an error exactly when there is not |
| Keystore.DriftIsRepaired | src-tauri/src/keystore.rs:353-368 | a start-up whose keyring holds another key opens by the file and puts the file's key in the keyring |
| Keystore.Vault.StoreKeyringWrapper | src-tauri/src/keystore.rs:669-685 | each write in order; refused while the vault always asks |
| Keystore.RingIsStored | src-tauri/src/keystore.rs:669-685 | the keyring as it answers opens its copy to the key afterwards, unless the vault always asks or the keyring does not answer; nothing else changes |
| Keystore.Vault.SetPassphrase | src-tauri/src/keystore.rs:510-548 | each write in order; once done the passphrase opens to the key and the file is gone |
| Keystore.AfterSetPassphrase | src-tauri/src/keystore.rs:495-548 | on any disk: nothing happens exactly for an empty or a short chosen passphrase; else exactly that passphrase opens, the file is gone, always-ask asks whatever the keyring says, and otherwise the keyring's copy is left as it was or made |
| Keystore.Vault.SetAlwaysAsk | src-tauri/src/keystore.rs:553-565 | only with a passphrase; the keyring's copy goes with it |
| Keystore.AfterSetAlwaysAsk | src-tauri/src/keystore.rs:553-565 | the passphrase stays; asked for from then on whatever the keyring says, or opened by the keyring again |
| Keystore.Vault.ClearPassphrase | src-tauri/src/keystore.rs:569-584 | the key is back in the file and no passphrase is left |
| Keystore.AfterClearPassphrase | src-tauri/src/keystore.rs:569-584 | the vault opens whatever the keyring says, no passphrase, PIN or fingerprint does, and the keyring has its copy |
| Keystore.Vault.UnlockWithPassphrase | src-tauri/src/keystore.rs:587-621 | opens exactly on the wrapper, upgrades weak costs and repairs a lost keyring copy, write by write |
| Keystore.AfterTypedPassphrase | src-tauri/src/keystore.rs:587-666 | on any disk: the passphrase still opens, under costs no lower than today's; the keyring's copy is rewritten if and only if the keyring is empty or answers and does not open it, never while it is locked or absent |
| Keystore.PassphraseExactly | src-tauri/src/keystore.rs:160-237 | on any disk a passphrase opens to a key if and only if the wrapper is sealed with it, read in the wrapper's form, and asks for no more than the allowed costs |
| Keystore.Vault.Initialize | src-tauri/src/keystore.rs:455-495 | each of the first-run choices ends in a vault its owner can open, or in an error |
| Keystore.Vault.SetPin | src-tauri/src/keystore.rs:743-756 | each write; only beside a passphrase |
| Keystore.Vault.UnlockWithPin | src-tauri/src/keystore.rs:791-827 | the failure is written before the PIN is tried |
| Keystore.PinExactly | src-tauri/src/keystore.rs:736-827 | on any disk a PIN opens to a key if and only if the phone answers and the wrapper is sealed with that PIN under allowed costs |
| Keystore.AfterSetPin | src-tauri/src/keystore.rs:728-756 | set if and only if it is six digits or more, a passphrase is there and the phone answers; then with no failures |
| Keystore.RightPinResets | src-tauri/src/keystore.rs:791-817 | the right PIN opens again, no failures are held against it, and costs below today's are raised |
| Keystore.FiveTries | src-tauri/src/keystore.rs:791-827 | from no failures four wrong tries are told four, three, two and one are left, and the fifth disables the PIN; a right one opens before that |
| Keystore.RightWaysOpen | src-tauri/src/keystore.rs:348-827 | from any sound disk: the file, the keyring, the passphrase and the PIN each put the key in hand |
| Keystore.UnlockGivesTheKey | src-tauri/src/keystore.rs:348-382 | from any sound disk and whatever the keyring says: the key, or that a passphrase is needed, and never another key |
| Keystore.PassphraseOpens | src-tauri/src/keystore.rs:587-621 | a passphrase opens if and only if it is, read as the wrapper says, the one that was set |
| Keystore.NeverLockedOut | src-tauri/src/keystore.rs:348-382 | every sound disk is opened without asking or by the passphrase |
| Keystore.SetPassphraseIsSound | src-tauri/src/keystore.rs:510-548 | sound after every single write: the passphrase is in place before the key leaves the file |
| Keystore.ClearPassphraseIsSound | src-tauri/src/keystore.rs:569-584 | sound after every single write: the key is back before the passphrase goes |
| Keystore.TypedPassphraseIsSound | src-tauri/src/keystore.rs:587-666 | sound after every write of the upgrade and the repair |
| Keystore.WritesAreSound | src-tauri/src/keystore.rs:348-827 | sound after every write of every operation |
| Keystore.RunsAreSound | src-tauri/src/keystore.rs:348-827 | in every run, stopped anywhere, with the keyring answering anything at any time: the file holds the key or the passphrase opens to it, always-ask has a passphrase and no keyring copy, PIN and fingerprint have a passphrase, the PIN wrapper opens by its PIN to the key, the key in hand is the key |
| Keystore.PinStep | src-tauri/src/keystore.rs:743-827 | stored failures cover the wrong answers given; the tries announced go down; a wrong answer is never the fifth |
| Keystore.PinRuns | src-tauri/src/keystore.rs:743-827 | and so through any run with stops |
| Keystore.DisabledStays | src-tauri/src/keystore.rs:791-827 | after Disabled nothing opens by PIN through any actions and stops until one is set |
| Keystore.RightPinOpens | src-tauri/src/keystore.rs:791-827 | a PIN opens to the key if and only if it is the one that was set and the phone answers, however many wrong ones came before |
| Store.SaveAppData | src-tauri/src/store.rs:242-280 | every state the directory passes through, and the one it ends in |
| Store.LoadAppData | src-tauri/src/store.rs:185-227 | what is loaded, and every state a recovery passes through |
| Store.LoadExactly | src-tauri/src/store.rs:185-227 | for any directory: a first run if and only if there is no `data.json`; the document it reads as if it reads, else the one the backup reads as; an error if and only if it is there and neither reads |
| Store.OpensWhatReads | src-tauri/src/store.rs:185-227 | in any run with any damage to any file, a launch that finds a `data.json` opens if and only if that or the backup reads, and with what it reads as; one that does not open changes nothing |
| Store.UnreadableStays | src-tauri/src/store.rs:203-207 | and a directory of which nothing reads stays as it is through any number of launches |
| Store.SaveIsAtomic | src-tauri/src/store.rs:242-280 | wherever a save stops, `data.json` is wholly the old version or wholly the new |
| Store.SavedIsRead | src-tauri/src/store.rs:242-280 | what was saved is what the next launch reads, the file it replaced is the backup when its copy was not cut short, and nothing else is touched |
| Store.DamagedIsKept | src-tauri/src/store.rs:215-226 | a recovery keeps the damaged file under its other name when it could be renamed, and the backup always |
| Store.LoadAfterSaveStop | src-tauri/src/store.rs:185-280 | and the next launch says what it would have said before the save, a first run included, or reads the new document |
| Store.LoadAfterRecoverStop | src-tauri/src/store.rs:209-226 | wherever a recovery stops the backup is untouched, and the next launch recovers or has recovered, except between the rename and the copy, and there it is a first run |
| Store.SaveAfterRecovery | src-tauri/src/store.rs:215-280 | the save after a completed recovery leaves the recovered version as the backup |
| Store.AlwaysSafe | src-tauri/src/store.rs:185-280 | through any run of saves, stops, recoveries whose copies are not cut short, and damage to the file in place beside a good backup, some whole committed version is on the disk, and every launch opens |
| Store.RestoreExactly | src-tauri/src/store.rs:215-226 | a recovery leaves a version in place or no file if and only if its copy ran to the end, or the damaged file was moved away and no copy begun |
| Store.SaveIsSafeExactly | src-tauri/src/store.rs:259-272 | with a good backup every stop of a save leaves a whole version if and only if the file it copies is one, or there is none, or it is what is being saved |
| Store.LaunchIsSafeExactly | src-tauri/src/store.rs:215-272 | after a launch that recovered, every stop of every save keeps a whole version if and only if the copy ran to the end, or the damaged file was moved away and no copy begun |
| Store.CutShortThenSaved | src-tauri/src/store.rs:220-272 | a recovery cut short and then a stopped save, after which no whole version is left |
| Store.EverythingIsLost | src-tauri/src/store.rs:185-280 | a run from the first launch to that state, two saves, damage and those two steps, a whole version on the disk until the last |
| Store.AlwaysRecent | src-tauri/src/store.rs:185-280 | through any such run in which no launch takes a directory with a backup and no `data.json` for a first run, the version last saved or read is on the disk, or the one before it |
| Store.PassedOver | src-tauri/src/store.rs:185-280 | a run with such a launch, after which two saves leave neither of the versions there were, though some version is on the disk at every step |
| Utf8.StepIsUnit | src-tauri/src/recording.rs:97-112 | the validator stops exactly at the well-formed characters and maximal ill-formed subparts of section 3.9 of the Unicode Standard |
| Utf8.LossyIsLossy | src-tauri/src/recording.rs:70-76 | lossy decoding is one scalar a character and one U+FFFD a maximal ill-formed subpart |
| Utf8.TextComesBack | src-tauri/src/recording.rs:93-116 | text encoded after RFC 3629 decodes to itself with nothing replaced |
| Recording.Utf8Split | src-tauri/src/recording.rs:93-116 | the loop over `from_utf8` gives all the text that is settled and how many bytes it took |
| Recording.Recorder.Output | src-tauri/src/recording.rs:46-54 | what is carried over and the event written, if any |
| Recording.Recorder.Drop | src-tauri/src/recording.rs:67-77 | what is left is written as the broken character it is |
| Recording.SettledIsLossy | src-tauri/src/recording.rs:93-116 | settled text is the start of the decoding whatever comes after it |
| Recording.WholeRecording | src-tauri/src/recording.rs:46-77 | however a stream is cut and wherever the terminal is resized, the recording shows the lossy decoding of the whole |
| Recording.HoldsBackLittle | src-tauri/src/recording.rs:46-54 | between calls at most three bytes are held, the start of a character; no event is empty |
| AgentFraming.Channel.TakeFrame | src-tauri/src/agent_forward.rs:152-166 | takes exactly the first whole request; waits or refuses without touching the buffer |
| AgentFraming.Channel.Serve | src-tauri/src/agent_forward.rs:88-119 | at any end, what arrived is the requests asked, in order, and the rest that waits |
| AgentFraming.OneReading | src-tauri/src/agent_forward.rs:152-166 | a stream reads in one way only, as these frames and this unfinished one |
| AgentFraming.FramesComeOut | src-tauri/src/agent_forward.rs:88-166 | frames that fit, encoded and cut anywhere, come out whole and in order; what waits is the part sent of the next, below its bound |
| AgentFraming.CutsDoNotMatter | src-tauri/src/agent_forward.rs:88-119 | two ways of cutting one stream come to the same requests and the same wait |
| AgentFraming.OversizeNeverWaits | src-tauri/src/agent_forward.rs:156-159 | an oversize length is refused once its four bytes are in |
| SessionOutput.Attach.Hold | src-tauri/src/ssh.rs:111-121 | holds exactly while no terminal is attached, and at most `MAX_PENDING` bytes, the last ones |
| SessionOutput.PendingIsTheEnd | src-tauri/src/ssh.rs:97-134 | in every run nothing waits while attached, and what waits is the last `MAX_PENDING` bytes held since the last collection |
| SessionOutput.Output.Flush | src-tauri/src/ssh.rs:197-236 | log, recording, flag, tail, held output and emitted event after one flush |
| SessionOutput.SpacedIsRight | src-tauri/src/ssh.rs:160-236 | flushed in pieces of which the inner ones have four bytes: the flag rises in exactly the flush the first header completes in, and the log stops at the later of the header's start and that flush's |
| SessionOutput.HiddenHeader | src-tauri/src/ssh.rs:214-215 | for every other way of cutting five bytes or more, a stream with a header in it and the flag down after every flush |
| SessionOutput.ExactlyWhenRight | src-tauri/src/ssh.rs:160-236 | all streams are handled right if and only if every inner piece has four bytes or the stream is too short for a header |
| Handover.StepExact | src/detach.ts:100-183 | one step of hold, marker, serialise, open, attach or failure keeps bytes shown, in flight and held equal to the session's output if and only if it is careful |
| Handover.WholeExactly | src/detach.ts:100-183 | in every interleaving nothing is lost, repeated or reordered up to any point if and only if every step so far is careful |
| Handover.HandoverIsWhole | src/detach.ts:9-14 | with flush as one step, the marker waited for, no more held than fits and replies before later events, it never is |
| Handover.SettledShowsAll | src/detach.ts:9-14 | once nothing is on its way the terminal shows what the session printed |
| Handover.HoldInTheGap | src-tauri/src/ssh.rs:231-234 | a run without a timeout in which the marker is delivered before output emitted after it, the screen is taken between, and the new terminal never shows that output |
| Handover.MarkerAstray | src/detach.ts:105-108 | a run in which the wait runs out and output is left behind |
| Handover.FailedMove | src/detach.ts:138-148 | a run to a failed move with output held meanwhile |
| Handover.ReplyOvertaken | src/detach.ts:145-153 | from every such state, live output shown before what was held before it |
| Handover.RunsAreRuns | src/detach.ts:100-183 | steps that run from the start are exactly those of a run with its states, and end where that does |
| Handover.StraysSomewhere | src/detach.ts:100-183 | a run that ends with output lost or out of order has a step that is not careful |
| Merge.Collection.MergeInto | src-tauri/src/backup.rs:402-423 | what is added, skipped, and where each imported id went, record by record |
| Merge.EveryIdLands | src-tauri/src/backup.rs:402-423 | every imported id leads to a record of the collection, and only imported ids lead anywhere |
| Merge.IdsLeadToTheSame | src-tauri/src/backup.rs:408-422 | an imported id leads to the first record of the collection that is the same as the last record imported under it |
| Merge.AddedIsNew | src-tauri/src/backup.rs:402-423 | no added record is the same as one that was there or as one added before it |
| Merge.EveryRecordIsThere | src-tauri/src/backup.rs:402-423 | every imported record, or one that is the same, is there afterwards |
| Merge.PreviewFallsShort | src-tauri/src/backup.rs:378-384 | with two new records that are the same the preview counts fewer than are skipped |
| Merge.PreviewExactly | src-tauri/src/backup.rs:378-384 | the preview never counts more than is skipped, and as many if and only if no two new records are the same |
| Backup.Vault.ApplyMerge | src-tauri/src/backup.rs:486-622 | the vault after both passes and the counts reported |
| Backup.ExistingUntouched | src-tauri/src/backup.rs:485-604 | every collection starts with what it was, and no theme is replaced |
| Backup.ReferencesLead | src-tauri/src/backup.rs:558-595 | every reference on an added server or forwarding is empty or names a record of the vault |
| Backup.ReferencesNameTheSame | src-tauri/src/backup.rs:558-595 | every added server and forwarding is one of the export; each jump, identity, key and host it names is the first record here that is the same as the one the export named, and is gone exactly when the export had none or it is the server itself |
| Backup.SecretsComeAcross | src-tauri/src/backup.rs:181-198 | every secret on a record that was added opens under the vault's key to what it opened to under the export's, and one that did not open is gone |
| Backup.ServersAreThereOnce | src-tauri/src/backup.rs:360-362 | every server of an import is there by its id or its host, port and user, and none that came has either in common with one before it |
| Backup.IdentitiesAreThereOnce | src-tauri/src/backup.rs:346-348 | the same of identities, by id or name and user |
| Backup.KeysAreThereOnce | src-tauri/src/backup.rs:350-358 | of keys, by id, or file where both have one, or name |
| Backup.ForwardingsAreThereOnce | src-tauri/src/backup.rs:364-371 | of forwardings, by id or all but the hosts they run through |
| Backup.CodeprintsAreThereOnce | src-tauri/src/backup.rs:373-375 | of codeprints, by id or name and command |
| Backup.ReportIsRight | src-tauri/src/backup.rs:486-556 | kind by kind as many were added as there are more of, the rest of the export's were skipped, and a kind not asked for is untouched |
| Backup.ThemesAndSettings | src-tauri/src/backup.rs:540-604 | new themes come in under their names when asked for, and settings are replaced exactly when asked for and there |
| Backup.UnresolvedCounts | src-tauri/src/backup.rs:561-597 | the references cleared are those counted and the jumps to the server itself; the count is exact if and only if there is none of those |
| Backup.SelfJumpIsNotCounted | src-tauri/src/backup.rs:583-585 | a jump cleared and not counted |
| Backup.CirclesExactly | src-tauri/src/backup.rs:575-586 | for any import and options, unless a server here jumps to one that is not here and in the export: a circle afterwards if and only if there was one here or the added servers, their jumps resolved, make one |
| Backup.ClosedIsKept | src-tauri/src/backup.rs:575-586 | where every jump leads to a server here nothing is waited for, and after an import every jump does |
| Backup.NoNewCircles | src-tauri/src/backup.rs:575-586 | then no circle here, none in the export and no two of its servers the same are enough for none together |
| Backup.SameServersCloseACircle | src-tauri/src/backup.rs:575-586 | three servers without a circle, two of them the same, whose import into an empty vault is a circle |
| Backup.AwaitedCloseACircle | src-tauri/src/backup.rs:575-586 | a server here whose jump leads nowhere and an import that brings the one it led to, neither with a circle, together one |
| Backup.TwiceIsOnce | src-tauri/src/backup.rs:486-604 | importing the same again with the same options changes nothing and adds nothing |
| Backup.PreviewAgrees | src-tauri/src/backup.rs:426-483 | for any options, of each kind that is taken the preview's duplicates are at most the skipped, and equal if and only if no two new records of that kind are the same; of themes always equal, of a kind not taken none is skipped |
| JumpChain.ChainLinks | src-tauri/src/sshconfig.rs:324-351 | links exactly when there are hops, each is a saved server and none is passed twice |
| JumpChain.PassedTwice | src-tauri/src/sshconfig.rs:336-342 | the loop that finds a server visited twice finds one exactly when there is |
| JumpChain.DialledInOrder | src-tauri/src/sshconfig.rs:312-323 | followed back from the far end the links give the config's hops in the config's order, once each, never in a circle |
| Calendar.CivilIsADate | src-tauri/src/sessionlog.rs:95-106 | for every day number a valid Gregorian date, whose own day count is that number |
| Calendar.CivilInverts | src-tauri/src/sessionlog.rs:95-106 | every valid date is found from its day count |
| Calendar.CivilAdvances | src-tauri/src/sessionlog.rs:95-106 | the next day number is the next day of the calendar, leap years included |
| Calendar.Epoch | src-tauri/src/sessionlog.rs:93-106 | day zero is the first of January 1970 |
| Calendar.TomorrowIsNext | src-tauri/src/sessionlog.rs:93-106 | the ordinary day count goes up by one a day |
| Stamp.StampIsRead | src-tauri/src/sessionlog.rs:86-91 | a stamp reads back as the second it was made from |
| Stamp.LabelIs | src-tauri/src/sessionlog.rs:76-83 | the label is the title between its first and last character that is no underscore or dot, at most 48 of it, what a file name need not bear made an underscore; `session` when nothing is left |
| Stamp.LabelsAreFileNames | src-tauri/src/sessionlog.rs:75-83 | one to 48 letters, digits, dots, dashes and underscores that start with no dot, and a title that is such a label stays itself |
| Stamp.ShortIdIs | src-tauri/src/sessionlog.rs:70-73 | the first eight bytes of the id where they end between two characters, else all of it |
| Stamp.NameRoundTrip | src/asciicast.ts:122-128 | the file name gives back the cleaned label and the second if and only if the year has four digits and the id's start is one to eight letters, digits or dashes |
| Stamp.StampsInOrder | src-tauri/src/sessionlog.rs:86-91 | before the year 10000 stamps sort as text in time order |
| Stamp.StampsSort | src-tauri/src/sessionlog.rs:86-91 | and up to no later moment |
| Stamp.FiveDigitYearsSortEarly | src-tauri/src/sessionlog.rs:90 | the first second of the year 10000 sorts before the one before it |
| Playback.ParseEvents | src/asciicast.ts:50-66 | the clock over the lines, latest-so-far or added up, and the events kept |
| Playback.EventsAreSorted | src/asciicast.ts:60-63 | however a file's times run, events come in order from zero on |
| Playback.RecordedPlaysBack | src/asciicast.ts:50-66 | events in order, written by their times in version 2 or by what passed before each in version 3, play back as they were |
| Playback.ClockIsTheLatest | src/asciicast.ts:60-63 | in version 2 the clock is the latest time on a line so far, or zero |
| Playback.ClockAddsUp | src/asciicast.ts:60-63 | in version 3 it is the sum of the times, one below zero counting for none |
| Playback.CompressIdle | src/asciicast.ts:76-85 | the time taken out so far is what makes each gap the shorter of itself and the limit |
| Playback.GapsAreCut | src/asciicast.ts:72-85 | gap by gap the smaller of what it was and the limit, and nothing else about an event changes |
| Playback.CompressedIsSortedExactly | src/asciicast.ts:76-85 | every timeline stays in order if and only if the limit is not negative |
| Playback.EventsBy | src/asciicast.ts:88-97 | the search by halves counts the events that have happened |
| Playback.SameShownExactly | src/asciicast.ts:76-97 | going to an event shows the same with pauses cut as without, in every timeline, if and only if the limit is above zero |
| History.Saved.RememberCommands | src-tauri/src/models.rs:628-634 | the batch pushed to the front one by one and truncated once |
| History.TruncateFirst | src/commandHistory.ts:33-35 | truncating before a command is the same as truncating after |
| History.BatchIsEach | src-tauri/src/models.rs:628-634 | the backend's one truncation and the frontend's at every command come to the same history, without duplicates and within the cap |
| History.BatchByLastRun | src-tauri/src/models.rs:623-627 | what a batch leaves, cut at any cap, is the commands run last, once each, the last first: none left out was run later than one kept |
| Ppk.MacInput | src-tauri/src/ppk.rs:183-196 | five strings, each behind its length |
| Ppk.TellsApartExactly | src-tauri/src/ppk.rs:183-196 | the bytes tell all fields below a length apart if and only if that length is at most 2^32 |
| Ppk.Cursor.ReadBytes | src-tauri/src/ppk.rs:349-355 | the next string and the cursor behind it, or a stop, and then there is none |
| Ppk.Cursor.ReadMpint | src-tauri/src/ppk.rs:357-364 | the same without leading zeros |
| Ppk.Buffer.WriteMpint | src-tauri/src/ppk.rs:375-390 | the string of the number's canonical bytes |
| Ppk.MpintIsCanonical | src-tauri/src/ppk.rs:375-390 | what is written is canonical and not negative after section 5 of RFC 4251, has the same value, and reads back to the same bytes |
| Ppk.CanonicalIsUnique | src-tauri/src/ppk.rs:375-390 | a number has one canonical form |
| Ppk.BuildContainer | src-tauri/src/ppk.rs:394-412 | header, public blob and padded private section of PROTOCOL.key |
| Ppk.ContainerReadsExactly | src-tauri/src/ppk.rs:394-412 | a reader of that layout gets type, fields, public blob and comment back if and only if public blob and section have lengths four bytes hold |
| Ppk.BuildRsa | src-tauri/src/ppk.rs:450-475 | refused exactly when a field is missing, else the container of the reordered fields |
| Ppk.RsaComesAcross | src-tauri/src/ppk.rs:450-475 | n, e, d, 1/q mod p, p and q read back in that order with the values they had |
| Ppk.BuildEd25519 | src-tauri/src/ppk.rs:425-448 | refused unless both halves have 32 bytes |
| Ppk.Ed25519ComesAcross | src-tauri/src/ppk.rs:425-448 | the public half, and the seed in front of it, read back |
| Ppk.BuildEcdsa | src-tauri/src/ppk.rs:477-496 | curve and point from the blob, the type from the file |
| Ppk.EcdsaComesAcross | src-tauri/src/ppk.rs:477-496 | curve, point and the value of the secret number read back |
| Socks5.Same | src-tauri/src/socks5.rs:128-130 | the fold over xor is equality |
| Socks5.Authenticate | src-tauri/src/socks5.rs:100-124 | succeeds exactly on the configured pair, and the bytes answered on each path |
| Socks5.Handshake | src-tauri/src/socks5.rs:31-95 | the outcome, how much is read, and all the client has been told on each path; where its bytes run out, nothing before a whole greeting, the method before a whole login, all but the answer to CONNECT after |
| Socks5.TurnedAwayIsRead | src-tauri/src/socks5.rs:48-56 | a client reads that no method will do, or that its login failed, exactly when that is so |
| Socks5.Reply | src-tauri/src/socks5.rs:138-144 | a client reading after section 6 of RFC 1928 gets success exactly when the channel opened, else a general failure, with an empty address, and nothing is left over |
| Socks5.RefusalIsRead | src-tauri/src/socks5.rs:60-63 | the same reader gets "command not supported" for anything but CONNECT |
| Socks5.ClientIsTold | src-tauri/src/socks5.rs:46-63 | after the answers of the handshake a client reads the method, the login let in where one is set, then that answer |
| Socks5.WelcomeGetsThrough | src-tauri/src/socks5.rs:31-95 | a well-formed client of sections 3 to 5 of RFC 1928 and section 2 of RFC 1929 is read to its last byte and no further; the host that comes out reads as the four or the sixteen bytes of its address in order, or is its name, and the port is its port |
| Socks5.OnlyTheWelcomeGetThrough | src-tauri/src/socks5.rs:31-95 | whoever gets through said exactly that, byte for byte, with the host and port that come out |
| Socks5.LoginDecides | src-tauri/src/socks5.rs:46-56 | with a login set, success is the offer of method 2 and both fields equal, and each failure has its own answer |

## Left out

- Ciphers, Argon2, HMAC, SHA-1, SHA-256, base64, JSON and the passphrase word list: ideal, as said above; strength and timing are not statements here.
- File modes, `fsync`, symbolic links and failing reads: only what a stopped process leaves behind. A failing write is modelled in `Store` (the copies) and nowhere else.
- Keystore.RunsAreSound: a whole-file write of `keystore.json` is one step, though `save_keystore` truncates in place (src-tauri/src/keystore.rs:312), and operations do not run at the same time.
- Keystore.Vault.SetPin: the phone's hardware is a yes or no, and the failure count does not wrap at 32 bits.
- Keystore.Vault.UnlockWithPassphrase: a typed passphrase comes with its word form (`canonical_words`) rather than being normalised here.
- Calendar.CivilIsADate: days are unbounded, where the code's overflow near the ends of 64 bits.
- KnownHosts.Keeper.CheckHost: a known_hosts file that is not UTF-8, which the code treats as missing, is not told apart from one; fingerprints are the keys themselves; `known_key_types`, `key_order` and `list_known_hosts` would only add easy members.
- KnownHosts.RemovedElsewhere: a condition that is enough for every answer to stay; which key is matched or revoked has its exact condition in `KnownHosts.MatchOutlivesExactly`.
- HostVerify.Verifier.Verify: the log lines and prompt texts, the certificate refusal of `verify_offer`, and I/O errors while writing.
- HostImport.ImportTwice: the counts of the second report are for imports whose added lines say themselves; that the file stays as it is has its exact condition in `HostImport.ImportTwiceExactly`.
- SessionOutput.Output.Flush: a log or recording that refuses the bytes and is dropped for it.
- Handover.HandoverIsWhole: the scrollback is its bytes and serialising keeps them; a window that crashes, which `takeBack` gives back without its scrollback, and a session that ends during a move are not modelled.
- AgentFraming.Channel.Serve: the agent's own replies come whole; `exchange` and its timeout are the agent not answering.
- Recording.Recorder.Output: the times of events.
- Backup.NoNewCircles: a condition on the export that is enough; the exact one, on the servers as they are added, is `Backup.CirclesExactly`.
- Backup.CirclesExactly: leaves out a server here that jumps to one only the export has, where a circle can run through both (`Backup.AwaitedCloseACircle`).
- Backup.ReferencesLead: `Identity.key_id`, which the second pass does not rewrite; servers and settings have the fields the merge looks at and one that stands for the rest.
- Backup.Vault.ApplyMerge: the known_hosts part is `HostImport`, and themes are a map in no order.
- JumpChain.ChainLinks: reading the config, `expand_includes`, `parse` and `jump_aliases`.
- Playback.ParseEvents: numbers are real rather than floating point, and a line comes parsed.
- Stamp.NameRoundTrip: the extension is written `.cast`; sorting recordings by file time when a name has no stamp.
- Ppk.BuildContainer: reading the PPK file's header lines, decryption and the PEM armour.
- Socks5.Handshake: the tunnel behind it.
- Tauri commands, windows, React components, russh, PTY, proxies, X11 and SFTP.
