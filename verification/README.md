# A model of the wallet core's hardest logic

These modules model, in Dafny, the parts of a Bitcoin watch-only wallet core
where most can go wrong, and prove what their code promises:

- **Confirmation proofs** (`Merkle`, `Proof`, `ProvenOn`, `Confirmations`):
  the reading of Merkle branches against the builder of the same repository, the
  work a header must show past the table of targets, chains of headers down
  from a checkpoint, the cache a session keeps of them, and the whole of what
  an Electrum server's answers lead to.
- **Opening a connection** (`Dial`, `Race`): the race of RFC 8305 (Happy
  Eyeballs) over a host's addresses, on a clock of milliseconds, against peers
  that do anything.
- **The live watch** (`LiveSettings`; `Asks`, `Relay`, `Conserved`,
  `Covered`): which
  settings reach a running watch when changes, refreshes, starts and stops
  interleave; and the scheduler of its syncs.
- **Lines off a stream** (`LineReader`), within a bound on memory and a linear
  cost.
- **Exact arithmetic and codecs**: versions (`Texts`, `Versions`, `Updates`),
  the lock's delays (`Lock`), dates (`Calendar`), weights (`Weight`), server
  addresses (`Addresses`, `TypedAddresses`), and the preview of a transaction
  (`Preview`).

Code the source writes as a loop or as changes to an object is a method or a
class here, proved equal to a function; lemmas then say what holds of that
function over every input and every run.

Hashes are parameters. Nothing is assumed of them: a statement that needs them
not to collide says which strings, among those actually hashed, would have to.
Tables of targets and checkpoints, servers, peers, clocks, the URL standard's
host parser and the checks for wallet material are parameters too, as
arbitrary as the statements allow.

## What the code does not keep

- `Asked::and` (src/live.rs:274-291): a merged ask's sync may leave out
  scripts an ask merged into it names, and would have read alone. When the
  other names none, the merged ask names none: at a block it reads what waits
  for one, otherwise the revealed scripts and the receive addresses past them,
  so that a payment seen to vanish is not looked at again, and a change script
  past those revealed, or one only a full scan comes to, is not read. When one
  names a script the wallet does not know, the full scan that finds it may
  stop short of one the wallet does. `Asks.AndMisses` shows the four,
  `Asks.AndCovers` says exactly when merging two leaves nothing out,
  `Asks.IncludedStandsFor` when any number does, and `Covered.DoneStoodFor`
  says so of every ask done in every run.
- `LockAttempts::stored` (src/lock.rs:160-174) is documented as never rounding
  a block down. It drops the part of a millisecond first, and adds to whole
  seconds of the wall clock, so a restored block may end up to a second and a
  millisecond early: `Lock.RestoredShort` shows both in runs of four failures,
  `Lock.RestoredAlmost` bounds them, `Lock.RestoredWhole` says exactly when a
  restart keeps a block whole, and `Lock.NeverShortened` what can be told of
  it as the block is written.
- `canonical_host` (src/chain/mod.rs:474-489) drops one final dot, so a host
  typed with two keeps one (`Addresses.DotKept`). The address kept is then
  read as another, by the scanner and the client (`Addresses.KeptAddress`,
  `Addresses.StoredOnce`), and shares its certificate key with it
  (`Addresses.KeysApart`); in no other case.
- A running watch is not told of a new order of the wallets
  (src/manager/wallets.rs:148-181), nor of an address revealed as it is shown
  (src/manager/wallets.rs:309-357): `LiveSettings.ReorderUnfollowed` shows a
  settled watch left with the old list, and `LiveSettings.SettledIsCurrent`
  says exactly when a settled watch follows the current settings.

## Model

| member | source | states |
|---|---|---|
| Merkle.MerkleRoot | src/chain/proof.rs:272-303 | The loop up a branch is the climb the lemmas below are about; byte for byte, each node is hashed from the 64 bytes of the one below and of a sibling that is sent reversed, to its left where the bit of the position is set, and the answer is the last node, or the first fault on the way |
| Merkle.MerkleOf | src/testkit.rs:161-185 | The builder makes each row of the hashes of the one below taken two by two, the last of an odd row beside itself, ends at the root, and sends of each row what is beside the position, reversed |
| Merkle.RootWalked | src/chain/proof.rs:272-303 | What is answered of any branch, by the bytes hashed and the bits of the position alone |
| Merkle.RootOfTwo | src/testkit.rs:161-185 | The root of two transactions is the hash of the first txid followed by the second |
| Merkle.StepDown | src/chain/proof.rs:284-300 | A step of the climb that reaches a node of a row starts from the node below it inside the unpadded row, never from the copy that pads it |
| Merkle.ClimbSound | src/chain/proof.rs:272-303 | A climb that ends at the root of real transactions went through nodes of the tree all the way, or two hashed strings collide |
| Merkle.BranchSound | src/chain/proof.rs:272-303 | A branch accepted for the root of real transactions is no longer than the tree is deep, starts at the node of its level and position inside the row, and of full length proves the transaction at that very position |
| Merkle.ClimbComplete | src/testkit.rs:161-185 | From any node of a row of distinct hashes the builder's branch climbs to the root, or is stopped only by an inner node that reads as a transaction |
| Merkle.BranchComplete | src/testkit.rs:161-185 | For up to 2^32 distinct txids the builder's branch is accepted with the root at every position, and never judged malformed |
| Merkle.PaddingRefused | src/chain/proof.rs:288-296 | The branch of the copy that pads an odd row is refused (CVE-2012-2459) |
| Proof.EasiestTarget | src/chain/proof.rs:147-168 | On mainnet the target of the period in the table, four times the last one period past it, sixteen times from there on, never more than the network allows; the network's own on Testnet4, none elsewhere; as the loop that stops early computes |
| Proof.SixteenTimesAtMost | src/chain/proof.rs:134-168 | Past the table no height, however high, asks for less than a sixteenth of the last period's work |
| Proof.WorkIs | src/chain/proof.rs:134-168 | A header has the work of a height exactly when its hash is within its own target and that within the easiest there |
| Proof.CheckpointIs | src/chain/proof.rs:395-412 | A height must chain to the last block of the 2,016 it is in, exactly on mainnet, where the tables reach it and its work is cheap |
| Proof.ChainsAgree | src/chain/proof.rs:395-486 | Two chains that end at the checkpoint of one period hold the same blocks where they overlap, or two headers collide |
| Proof.RememberValid | src/chain/proof.rs:558-570 | What a chain leaves in the cache, cleared or not, is again made of chains to checkpoints |
| Proof.RememberBounded | src/chain/proof.rs:558-570 | The cache never holds more periods than its most |
| Proof.KeptIsFound | src/chain/proof.rs:541-570 | What the cache answers of any height once a chain was kept: the chain that starts lowest of its period, and of the others what it held, unless it was full |
| Proof.AnswerIsReal | src/chain/proof.rs:494-512 | Whatever the caches hold and in whatever order they are searched, an answer other than unsure is the truth of any chain to the checkpoint, or headers collide |
| Proof.OrderIndependent | src/chain/proof.rs:494-512 | No order of the hash map changes an answer, or two headers read collide |
| Proof.AnswersNeverConflict | src/chain/proof.rs:494-570 | Between any two states of the caches, kept or evicted, a block held in one is never refused in the other: eviction can only leave it unsure, or headers collide |
| Proof.ChainsToRead | src/chain/proof.rs:517-535 | The list holds, once a period and in order, the lowest block of each period that needs a chain, and covers every block that does |
| Proof.SortedReads | src/chain/proof.rs:517-535 | The list has exactly the entries of the map, sorted by height |
| ProvenOn.HeadersFrom | src/chain/electrum/sync.rs:787-805 | The loop asks for the headers past those it has until it has as many as wanted, cuts them to that, stops at an empty answer with what it has, and gives none on a refusal |
| ProvenOn.Session.RememberChained | src/chain/proof.rs:558-570 | Keeps the chain that starts lowest of its period, clearing the full cache first |
| ProvenOn.Session.ChainToCheckpoint | src/chain/proof.rs:468-486 | Answers hashes exactly for a chain to the checkpoint, keeps it then, changes nothing otherwise |
| ProvenOn.Session.Chained | src/chain/proof.rs:494-512 | Answers what some order of search allows |
| ProvenOn.Session.ProvenOn | src/chain/electrum.rs:998-1048 | Decides exactly as the readings, branch, header, work and chain together say, whatever other syncs make of the shared cache between its three uses, and leaves it valid |
| ProvenOn.Session.ChainOn | src/chain/electrum.rs:1030-1047 | The chaining of one block reads at most the one chain the list names, and answers by it or by the cache as it is then |
| ProvenOn.OneReadAtMost | src/chain/electrum.rs:1030-1047 | For one block the list has one entry when a chain is needed, and none otherwise |
| Confirmations.TrueIsProven | src/chain/electrum.rs:998-1048 | True means: not above the tip, a header with the work of its height, a branch from the transaction to that header's root, and, where there is a checkpoint, a chain to it holding that header |
| Confirmations.TrueIsReal | src/chain/electrum.rs:998-1048 | True under a checkpoint means the transaction is in the block the real chain has there, or a hash collision is at hand |
| Confirmations.ChargedExactly | src/chain/electrum.rs:998-1048 | A server is charged with a false proof exactly for a height past those that may have come in since, a header without work, a branch no block has, one that leads elsewhere again, or a block outside the chain to its checkpoint |
| Confirmations.FailsExactly | src/chain/electrum.rs:998-1048 | The way there is said to have failed exactly when a header asked for cannot be had, the first or the second time, or the headers of a chain wanted |
| Confirmations.TrueExactly | src/chain/electrum.rs:998-1048 | The answer is true exactly for a header with work and a branch to its root, at or below the tip, in a chain to its checkpoint if it has one |
| Confirmations.HonestNeverCharged | src/chain/electrum.rs:998-1048 | A server that answers throughout from one real chain is never charged with a false proof, and is believed when it answers all that is asked and a chain found in the cache is not cleared meanwhile |
| Confirmations.DecidedAfterReading | src/chain/proof.rs:517-535 | After reading all that is listed, with nothing evicted meanwhile, no proven block is unsure |
| Confirmations.KeepingLosesNothing | src/chain/proof.rs:558-570 | Below the most periods, keeping a chain takes no block out of the cache |
| Confirmations.AllKeptLosesNothing | src/chain/proof.rs:558-570 | Any chains kept, by whichever sync, take none out while the periods held and the chains kept are no more than the most |
| Confirmations.DecidedByCount | src/chain/proof.rs:494-570 | After reading all that is listed, no proven block is unsure if the periods held at first and the chains kept meanwhile are no more than the most |
| Dial.Ordered | src/chain/dial.rs:61-78 | The loop over the two families gives their alternation |
| Dial.OrderAlternates | src/chain/dial.rs:61-78 | The order is a permutation, stable in each family, alternating from the family of the first address until one runs out |
| Dial.Flights.Start | src/chain/dial.rs:86-89 | An attempt takes the next slot |
| Dial.Flights.End | src/chain/dial.rs:93-96 | An attempt ended leaves its slot; whether it was the last started |
| Dial.OpeningIsFirst | src/chain/dial.rs:105-121 | The time given is exactly the first at which a place is free if no attempt ends, so no wake-up is missed |
| Race.Race | src/chain/dial.rs:151-290 | Of every race: it ends by its deadline; addresses are tried in order, within both caps, apart, never later than a free place allows, and by the bound of their rank; every attempt is heard of the moment its fate comes, and the first to connect is kept then; a timeout comes at the deadline, only with an attempt or address left; the last failure is told the moment the last attempt ends; no address, at once, only for none |
| Race.OpeningDue | src/chain/dial.rs:105-121 | While the race goes on, the next address is due by its bound, whatever the peers do |
| Race.BusyWaiting | src/chain/dial.rs:105-121 | Until the time given, every place is taken: none is left idle |
| Race.BoundIs | src/chain/dial.rs:31-57 | The bound of the i-th address is a STALL for every AT_ONCE before it and a STAGGER for each of the rest |
| LiveSettings.Running.Hand | src/live.rs:662-687 | The end of a refresh drops a reading no later than the one applied, and else hands over a whole configuration, a list of wallets, or nothing |
| LiveSettings.HandedFaithful | src/live.rs:672-687 | What the manager believes its watch holds is what the commands sent lead it to follow, and the configuration count rises exactly when the configuration changes |
| LiveSettings.NextKept | src/live.rs:585-616 | Every step of every call, start and stop keeps the invariant of the protocol |
| LiveSettings.LaterReadingWins | src/live.rs:656-687 | In every interleaving the readings handed to one watch strictly rise, each being what the settings were at that reading |
| LiveSettings.NeverMixed | src/live.rs:662-687 | A watch follows the configuration and the wallets of one reading, the one applied |
| LiveSettings.SettledIsCurrent | src/live.rs:585-711 | Once no call is in flight, a running watch follows the current settings and wallets, unless a change no refresh follows came after the reading it was handed; then exactly if the last such change put back what was read |
| LiveSettings.ReorderUnfollowed | src/manager/wallets.rs:144-181 | A settled watch goes on with the old list after the wallets are put in another order, and nothing is in flight to tell it |
| LiveSettings.TwoWalletsReordered | src/manager/wallets.rs:144-181 | Two wallets changing places is such an order |
| LiveSettings.StoppedForGood | src/live.rs:622-627 | After a stop no watch started before is handed anything, whatever was in flight or comes after: only one started since |
| LiveSettings.RefreshFollows | src/live.rs:656-687 | A refresh left to itself once nothing else is in flight leaves a running watch on the current settings, whatever came before |
| LiveSettings.CallsEnd | src/live.rs:585-711 | Every call ends within five steps of its own, whatever the others do |
| Asks.AndCovers | src/live.rs:274-324 | One sync reads every script the syncs of two asks would, exactly unless one alone names scripts, whose sync reads some that the whole wallet's, or at a block what waits, leaves out; or one names a script the wallet does not know and the full scan leaves out some the other names |
| Asks.IncludedStandsFor | src/manager/sync.rs:120-178 | The sync of an ask merged from any number reads every script one of theirs would, by the plans they come to, under the same condition |
| Asks.IncludedNamesRead | src/manager/sync.rs:120-178 | It reads every script an ask names exactly if these are among what a sync of the whole wallet, or at a block of what waits, reads; or, naming scripts, if it needs no full scan or the scan comes to them |
| Asks.IncludedReadsClosely | src/manager/sync.rs:137-178 | It reads them less closely than the ask's own sync exactly if it only checks the whole wallet, where the ask names scripts or those that wait for a block |
| Asks.AndMisses | src/live.rs:274-324 | Four merges whose sync does not read a script one ask's own would: a payment looked at again beside a block while another waits, an unrevealed change script and one only a full scan comes to beside a whole-wallet sync, and a known one beside one that takes a full scan |
| Asks.AndStandsIn | src/live.rs:274-291 | Proofs survive a merge only with proofs, and otherwise their scripts are named to the sync that stands in, unless it is of the whole wallet |
| Asks.ReasonMerged | src/live.rs:274-291 | Of two reasons the one that reads more is kept |
| Asks.EventAsks | src/live.rs:244-270 | An event asks for the scripts it names, or the whole wallet when it names none, and brings its proofs as they are, for the scripts they prove |
| Relay.Relay.Take | src/live.rs:1097-1128 | An ask starts a sync of a wallet that has none, and is merged into what waits behind it otherwise |
| Relay.Relay.Finish | src/live.rs:984-1028 | A sync that ends leaves the tables, is owed if it failed, and is followed by what was asked meanwhile |
| Relay.Relay.Reconfigure | src/live.rs:951-963 | A new configuration aborts every task and empties the tables |
| Relay.Relay.Look | src/live.rs:1140-1178 | A look asks again what is owed, in whatever order, and what is due and was not asked lately, as `Covered.DayAsked` and `Covered.RecheckAsked` say of every run |
| Relay.Relay.Choose | src/live.rs:1159-1173 | Either loop of a look asks, of each wallet due and not asked for lately, its first entry, in order and nothing else, and marks it asked for now |
| Conserved.RunsTheRelay | src/live.rs:878-1034 | A run does to the tables what the methods of the scheduler do |
| Conserved.Conserved | src/live.rs:889-1031 | In every run each ask is in exactly one place, and the tables hold it there and nowhere else |
| Conserved.OneSyncPerWallet | src/live.rs:889-1031 | The keys of `again` are the wallets with a sync running that was not aborted, and each has exactly one |
| Conserved.NeverTooSoon | src/live.rs:984-1028 | An ask is never done by a sync that started before it arrived |
| Conserved.MovesOn | src/live.rs:951-1028 | Done stays done, only a new configuration drops an ask, a sync that ends is what moves its asks on, and those queued run next |
| Conserved.SettledMoves | src/live.rs:984-1028 | A sync that ends moves exactly its own asks, to done or to owed, and those queued behind it, to the next sync |
| Conserved.LookMoves | src/live.rs:1140-1178 | After a look nothing owed before it is owed: all of it runs or is queued |
| Conserved.PickOnce | src/live.rs:1155-1173 | One look asks of its own accord nothing asked within the hour, and nothing twice |
| Covered.OncePerHour | src/live.rs:1155-1173 | Over every run, between new configurations, looks ask of their own accord, for either reason, at most once an hour for each wallet |
| Covered.DayAsked | src/live.rs:1155-1178 | In every run a look starts or queues a complete sync of a wallet exactly if one is due and none was asked within the hour |
| Covered.RecheckAsked | src/live.rs:1155-1178 | And the second look at a payment seen to vanish, with its own scripts, exactly if none was asked within the hour |
| Covered.DoneStoodFor | src/live.rs:889-1031 | In every run an ask done was done by a sync of its wallet given at least what it asked, which read every script the ask's own would have under the exact condition of `Asks.IncludedStandsFor` |
| Covered.GivenStandsIn | src/live.rs:254-291 | In every run the proofs a sync is given stand for exactly the scripts it names |
| LineReader.SplitIs | src/chain/net.rs:233-245 | The pieces of a text are the only way to cut it at its line ends |
| LineReader.LineReader.NextLine | src/chain/net.rs:233-263 | A call reads on only for want of a line, hands out the next piece received less one CR if it ends in one, and else answers as the last reading says: the end, a failure, a drop, or too much held without an end; the buffer stays within the limit and one read, each byte is examined once and moved at most once |
| LineReader.LinesInOrder | src/chain/net.rs:233-263 | The lines handed out over any calls are the first pieces of the stream, one for one, each less one CR if it ends in one, however it is cut into reads and wherever calls were dropped and made again |
| LineReader.DroppedAndMadeAgain | src/chain/net.rs:206-263 | A call dropped at a read and made again comes to what it would have come to in one go |
| LineReader.NoneWithheld | src/chain/net.rs:233-263 | A call that answers no line leaves no line received |
| LineReader.Bounded | src/chain/net.rs:206-263 | No line handed out is longer than the limit and one read, and a stream whose lines keep to the limit is never cut off |
| Texts.NumberIs | src/updates.rs:249-255 | A number is read exactly from its decimal text, without leading zeros, within 64 bits |
| Versions.Parse | src/updates.rs:208-240 | The parser, its loop over the three numbers included, reads as specified |
| Versions.ReadIs | src/updates.rs:208-308 | A text is read as a version exactly when it is short enough, its build metadata is well formed, and the rest without its v is that version printed |
| Versions.ReadsSpelled | src/updates.rs:208-308 | A text is read as a version exactly when it is one as sections 2, 9 and 10 of Semantic Versioning 2.0.0 spell it, after a v or none, in 32 letters at most |
| Versions.RoundTrip | src/updates.rs:208-308 | What is printed of a version read is the text without its v and build metadata, and reads back as the same version |
| Versions.ComparePrecedes | src/updates.rs:272-287 | The order is section 11 of Semantic Versioning 2.0.0, and tells apart all but equal versions |
| Versions.CompareChain | src/updates.rs:272-287 | The order is transitive, so total |
| Updates.ReleaseIs | src/updates.rs:169-173 | A tag names a release exactly when it spells a version with no pre-release |
| Updates.UpdateRecord.Answer | src/updates.rs:169-173 | An answer keeps the release it names, printed, or nothing |
| Updates.UpdateRecord.Dismiss | src/updates.rs:177-182 | A closing keeps the later of two versions |
| Updates.UpdateRecord.Tell | src/updates.rs:148-165 | The status told is the one specified |
| Updates.Announced | src/updates.rs:148-182 | After any run from the default record, a release is announced exactly when the last answer named it, it is no pre-release, and it is after the version running and after every version ever closed |
| Lock.DelaysAre | src/lock.rs:84-90 | Nothing for two failures, then 5, 10, 20, 40, 80, 160 and 300 seconds |
| Lock.WaitTold | src/lock.rs:177-182 | A guess is refused exactly while the block lasts, and the seconds told are the whole ones left, one at least |
| Lock.WaitRestored | src/lock.rs:146-159 | After a restart what the file says is left is waited, by the clock on the wall, 300 seconds at most and from the third failure on five at least |
| Lock.OverAsWritten | src/lock.rs:162-174 | A block over as it is written is not carried across a restart |
| Lock.LockAttempts.Load | src/lock.rs:146-159 | A record restored holds the count and the block of its file, re-armed and capped |
| Lock.LockAttempts.Fail | src/lock.rs:189-199 | A failure counts, blocks for its delay, and is written |
| Lock.RestoredAlmost | src/lock.rs:146-174 | By a right clock a block carried across a restart ends less than a second and a millisecond early |
| Lock.RestoredWhole | src/lock.rs:146-174 | By a right clock a restart keeps a block whole exactly when the rounding up makes up for the part of its second the clock stood past at the writing, less that at the restart, or no more than the first delay was left |
| Lock.NeverShortened | src/lock.rs:146-174 | As a block is written: no restart shortens it if the rounding up makes up for the part of its second the clock stands past; otherwise one as the clock next turns a second does, exactly if more than the first delay is left then |
| Lock.BlockedFromThird | src/lock.rs:146-210 | In every run a block, in memory or in the file, is of the third failure or a later |
| Lock.RestoredShort | src/lock.rs:146-210 | Two runs of four failures whose block a restart shortens, one by each rounding |
| Lock.Guarded | src/lock.rs:146-210 | Over any run with any wall clock, no failure is forgotten, guesses from the third failure on are five seconds apart, and no wait is longer than 300 seconds |
| Lock.TakesAtLeast | src/lock.rs:84-210 | Without a restart n failed guesses, from ten on, take at least 315 + 300 (n - 9) seconds |
| Calendar.NextDayCounts | src/format.rs:41-50 | The day after any date of the calendar is one more, at the end of months, leap years and centuries too |
| Calendar.CivilDateIs | src/format.rs:20-37 | Every unix time is dated by the day the calendar reaches counting from 1970-01-01 |
| Calendar.Inverses | src/format.rs:20-50 | The two functions undo each other on every day from 1970-01-01 on |
| Weight.WeightCounts | src/broadcast/signing.rs:228-248 | The weight BIP-141 defines on the serialized bytes is what the sums count |
| Weight.Exact | src/broadcast/signing.rs:57-248 | Inputs counted by what they are finally given, the weight told beforehand is that of the transaction completed, marker and flag included |
| Weight.Between | src/broadcast/signing.rs:228-248 | Skeleton, completed transaction and ample estimate are in this order by virtual size |
| Weight.VbytesAre | src/broadcast.rs:919-926 | Four units of weight are a virtual byte, one begun counted whole |
| Weight.CompactSizeSpells | src/broadcast/signing.rs:57-248 | A size written before what it counts is its bytes from the least, the fewest that hold it, after one that says how many |
| Weight.StrippedSize | src/broadcast/signing.rs:228-248 | The stripped size, field by field |
| Addresses.Canonical | src/chain/mod.rs:474-489 | A canonical host is its own canonical form exactly when it does not end in a dot |
| Addresses.KeptAddress | src/chain/connect.rs:151-249 | An Electrum address handed out is read again as itself, and by the client as the same server, exactly when its host does not end in a dot; its key is then its host and port |
| Addresses.ClientReads | src/chain/electrum.rs:112-155 | The client reads a kept address as its transport, the canonical form of its host, and its port, IPv6 brackets included |
| Addresses.KeysApart | src/chain/electrum.rs:164-172 | Two addresses share a certificate key exactly when they are read as the same port and as hosts of the same canonical form, which is the host itself unless a final dot was left on it |
| Addresses.DotKept | src/chain/mod.rs:474-489 | A host typed with two final dots keeps one, is read again as another, and shares its key with it |
| Addresses.StoredOnce | src/chain/connect.rs:396-424 | An address stored is stored again byte for byte exactly when its host does not end in a dot |
| TypedAddresses.FlagReads | src/chain/connect.rs:207-228 | A host and port flagged `s` or `t`, in either case, are read as TLS or plain TCP, on port 50002 or 50001 when none is typed |
| TypedAddresses.FlagRefused | src/chain/connect.rs:207-228 | Any other letter is refused as a flag, unless it ends an IPv6 address |
| TypedAddresses.SchemeReads | src/chain/connect.rs:187-205 | A scheme, in either case, says the transport, whatever the port and whatever path follows |
| TypedAddresses.SchemeElse | src/chain/connect.rs:187-205 | Any other scheme is refused, or read as HTTP addresses are |
| TypedAddresses.BareReads | src/chain/connect.rs:230-249 | With neither, a usual port says the transport, and else a host is TLS unless it is an onion; a name without a dot is refused but for localhost |
| TypedAddresses.Ipv6Reads | src/chain/connect.rs:230-249 | A bare IPv6 address is a host, none of its colons a port's |
| TypedAddresses.OnionIs | src/chain/mod.rs:418-423 | An onion ends in .onion, in either case, with a final dot or without |
| TypedAddresses.PartsRefused | src/chain/connect.rs:71-106 | A host and port are refused for a bracket not closed, for colons that are no IPv6 address's, and for a port that is no number from 1 to 65535, exactly |
| TypedAddresses.HostRefused | src/chain/connect.rs:107-121 | A host is refused if there is none, if it has a space, or if the URL standard reads none, in this order |
| TypedAddresses.MaterialRefused | src/chain/connect.rs:151-186 | A text is refused as wallet material exactly if it starts like some, in either case, or is found to hold it |
| TypedAddresses.SpacesDropped | src/chain/connect.rs:151-155 | Spaces around what is scanned make no difference |
| TypedAddresses.BracketsSame | src/chain/mod.rs:474-489 | An IPv6 host is one with its brackets or without |
| TypedAddresses.ClientScheme | src/chain/electrum.rs:112-155 | The client reads `ssl`, `tls` and `tcp` as the scanner does, on the port of the transport when none is typed, and refuses other schemes |
| TypedAddresses.ClientBare | src/chain/electrum.rs:112-155 | And an address without a scheme as TLS |
| TypedAddresses.StoredReads | src/chain/connect.rs:396-424 | An Electrum address typed bare is stored as TLS, whatever its port |
| TypedAddresses.StoredIpv6 | src/chain/connect.rs:396-424 | And so is a bare IPv6 address, in brackets |
| TypedAddresses.StoredFlag | src/chain/connect.rs:396-424 | One with a flag is stored as the flag says |
| Preview.RepeatedOutpoint | src/broadcast.rs:740-746 | None exactly when all coins are distinct; otherwise the first input that repeats one, and the one it repeats |
| Preview.InTotal | src/broadcast.rs:885-888 | The sum of what inputs bring, exactly when all values are known and it fits 64 bits |
| Preview.OutTotal | src/chain/mod.rs:761-766 | The sum of what outputs pay, exactly when within all bitcoin |
| Preview.ValueIs | src/broadcast.rs:840-853 | The value of a coin is what its own transaction says if carried, else what the manager learned, else what the PSBT declares |
| Preview.DeclaringRefusesNothing | src/broadcast.rs:885-945 | Whatever a PSBT declares of its coins, that alone refuses nothing |
| Preview.CoinCautions | src/broadcast.rs:1062-1127 | A coin is warned of exactly when nobody knows it or it is spent elsewhere, blocks exactly when seen spent in a block, and the same transaction waiting is noticed |
| Preview.Build | src/broadcast.rs:885-1313 | A fee exactly when all values are known and possible and cover the outputs, and then inputs are outputs plus fee; refused exactly for outputs past all bitcoin, amounts all proven that do not cover them, or a coin seen spent in a block; ready, hex, and signed with no blocking caution are one; each kind of caution is there exactly when there is cause for it |

## Left out

- Merkle.MerkleRoot: branches and positions come as values; the hexadecimal text a server sends them in, and its length, are not modelled.
- Merkle.MerkleOf: called, as its callers do, with a position inside the padded row; for any other its indexing panics.
- Confirmations.TrueIsReal: says where in the real block the transaction is only for a branch as long as the tree is deep, since `merkle_root` takes shorter ones, which then start at an inner node.
- Confirmations.HonestNeverCharged: the chain stays fixed during a call; a reorganisation between the reading of the branch and of the header does read as a false proof.
- Race.Race: a wait ends exactly at its wake-up, as if threads and timers were never late; times are milliseconds.
- LiveSettings.NextKept: the counters by which a running watch tells its first pass, and the syncs held back while a watch starts, are not modelled.
- Covered.DoneStoodFor: an address watched alone, whose sync reads its one script whatever it is asked, is not told apart, nor a wallet that changes while its sync waits.
- Conserved.Conserved: the two permits of the syncs, their retries, the hold on claims that found nothing, and the announcing of news between two tables are not modelled; none moves an ask.
- Asks.AndCovers: how far the walk of the receive addresses and a full scan come is taken to be the same whichever sync runs them, what waits for a block to be among the revealed scripts, as the wallet engine keeps it; a script that is no hexadecimal text, which a sync skips, is not told apart, nor one read for a reorganisation beside the plan.
- Updates.Announced: the settings of the check, when one is due, and the request itself are not modelled.
- Lock.Guarded: unix times are unbounded, and each writing of the file succeeds whole; links, stale and temporary files are not modelled.
- Weight.Exact: a transaction without inputs, which some libraries serialize with a marker all the same, is counted as BIP-141 does.
- Weight.Between: that an estimate is ample is the promise of the miniscript library, not part of this model.
- Addresses.KeptAddress: the URL standard's host parser, the tests for wallet material and HTTP addresses are parameters; of the first, what its standard promises of what it hands out.
- Preview.Build: cautions that never block, their wording, fee rates and shares in floating point, and the reading of PSBTs are not modelled.
- Chaining over Esplora, price fetching, exports, backups, the vault, Tor, and the wallet and watch engines: input and output, wording, or code of other libraries.
