# A verified model of the Azimuth replica

The program replays the event logs of two Ethereum contracts into one table of points: layer 1 (the Azimuth contract)
and layer 2 (batches of signed transactions posted to the Naive contract). This project models that replay in Dafny 4.11
and proves what it keeps. `dafny verify dfyconfig.toml` checks everything.

## The parts

- `Outcomes`, `ByteStrings`: panics as results, machine integers, number encodings.
- `Points`, `Diffs`: the `points` table with its schema defaults, the deferred column writes sent to it, the diff log.
- `BatchParser`, `BatchTheorems`: the parser that reads a batch from its end, against the documented record layout.
- `Signing`: the signed message and its check. Hashing with key recovery is one unknown function, which yields no key or
  an address other than zero.
- `AzimuthEvents`: the 14 layer 1 event kinds. `NaiveEffects`: the 11 layer 2 opcodes. In both, statements that the
  program collects first and runs afterwards are proved to make an intended change that is stated separately.
- `Runs`: one step of either layer, whole runs, and events as sequences of steps. Every property of runs is proved for
  arbitrary interleavings of steps, so it holds inside batches too; `Runs.FoldIsRun` carries it over to replays of events.
- `EventLaws`, `TxLaws`: what each event and opcode does, in plain columns and diffs, apart from how it is computed.
- `Moments`: what differs at the two ends of a run was changed by one of its steps.
- `BatchReplay`, `Layers`, `Authority`, `KeyLives`, `Escapes`, `Sponsors`, `Sponsorship`, `NonceTheorems`,
  `HeaderlessReplay`, `DiffLog`, `AddressLog`: properties of steps and runs.
- `EventOrder`, `Replay`: chain order, and the class `Replica` with the loops that play pending events.
- `Scrambler`, `Phonemes`, `SyllableTables`: ship names.

## How Go is read

- A `panic` is the outcome `Panic`; it ends the run and loses the open transaction. Theorems about runs are about runs
  that do not panic, unless they say otherwise.
- A point's columns are grouped: five addresses, five nonces, three key columns. The row's number is its key in the table.
- Nonce columns are 64-bit in the database and are scanned into a Go `uint32`, which fails when they do not fit. The model
  keeps them unbounded and lets that read panic, so no bound on nonces has to be assumed anywhere.
- `life` and `rift` are Go `uint32`s and wrap.
- Reading `LostSponsor`'s joined row panics when the sponsor has no row, because a null cannot be scanned into an `int`.
- Selecting rows replaces the contents of the slice that receives them.
- The code signs for chain id "1" (pkg/db/naive_parser.go:77), although the comment above it says "1337" (line 62). The
  model follows the code.

## What turned out not to hold

- A batch may be posted without its leading zero bytes, but the parser reads the proxy and opcode bytes without that
  convention. `BatchTheorems.StripExactly` says exactly when a stripped batch is still read back, and
  `BatchTheorems.StrippedHeaderMisread` gives one that is not.
- Two accepted transactions can share a signed message. `NonceTheorems.ReplayFreshness` shows that this takes two
  signatures without any header, one read as the voting and one as the transfer role of ship 0, under equal nonces;
  `HeaderlessReplay.MessageAcceptedTwice` is such a replay, from an empty table.
- Ship 0 can adopt a point that asked for nobody: `Escapes.AnswersRealRequest`, `Escapes.UnaskedAdoption`.
- The diff log does not tell the addresses that a transfer clears: `AddressLog.AddressIsLogged`,
  `AddressLog.ClearedAddress`.
- Every point that layer 2 creates has its natural parent as sponsor, but that is not always a planet or star: ship 0 may
  spawn a galaxy that does not exist yet (`TxLaws.SpawnLaw`).
- Playing early layer 1 events first is chain order only if no Naive event precedes one of them:
  `Replay.OneOrderOfEvents`. Likewise playing in stages is playing at once only if no early event arrives after a later
  one was played: `Replay.PrefixThenContinuation`.
- `Fein` is not injective on all 32-bit numbers, only below 0xffff0000, which is all that scrambling gives it:
  `Scrambler.FyndUndoesFein`.

## Model

| member | source | states |
|---|---|---|
| Scrambler.Fein | pkg/phonemes/scrambler.go:30-50 | on every uint32 the loop computes the four-round mixing, without wrap-around |
| Scrambler.Fynd | pkg/phonemes/scrambler.go:62-81 | on every uint32 the loop computes the inverse rounds, without wrap-around |
| Scrambler.FyndUndoesFein | pkg/phonemes/scrambler.go:30-81 | whatever the hash, fynd after fein is the remainder modulo 0xffff0000, so the identity exactly below that |
| Scrambler.FeinUndoesFynd | pkg/phonemes/scrambler.go:30-81 | fein inverts fynd if and only if the number is below 0xffff0000, so below it both are onto |
| Scrambler.FourRounds | pkg/phonemes/scrambler.go:30-50 | the mixing in plain arithmetic: which hash, which modulus and which half in each round, and the final swap but for a half of 0xffff |
| Scrambler.ScrambleIsPermutation | pkg/phonemes/scrambler.go:21-59 | scrambling permutes all 32-bit numbers with unscrambling as inverse, fixes galaxies and stars, keeps planets planets |
| Phonemes.BuildLookup | pkg/phonemes/phonemes.go:80-87 | the map holds exactly the table's syllables, each at its last position |
| Phonemes.PhonemeQToInt | pkg/phonemes/phonemes.go:107-131 | accepts exactly known syllables in well-formed segments; the value is the base-65536 number modulo 2^64 for any segment count |
| Phonemes.PrintedSegments | pkg/phonemes/phonemes.go:89-96 | printing writes hyphen-joined segments that read back as the number, the first not zero |
| Phonemes.QRoundTrip | pkg/phonemes/phonemes.go:89-131 | every 64-bit number survives printing and parsing |
| Phonemes.CanonicalNames | pkg/phonemes/phonemes.go:89-131 | an accepted name prints back as itself exactly when it is a lone suffix, a lone segment with a prefix other than the first, or two to four segments with a non-zero first |
| Phonemes.NameRoundTrip | pkg/phonemes/phonemes.go:133-150 | every 64-bit number is recovered from its scrambled name, on both sides of 2^32, whatever the hash |
| Phonemes.NameSpells | pkg/phonemes/phonemes.go:133-139 | a name spells the number whose low 32 bits are mixed from 0x10000 up, and left alone below |
| Phonemes.Spelling | pkg/phonemes/phonemes.go:89-105 | galaxies are a suffix, stars a prefix and a suffix, planets two such segments, high part first |
| SyllableTables.SyllablesValid | pkg/phonemes/phonemes.go:8-78 | the two tables hold 256 distinct three-letter hyphen-free syllables each |
| SyllableTables.EveryNameReadsBack | pkg/phonemes/phonemes.go:8-150 | the name round trip for the program's own tables |
| Points.ParentIsSenior | pkg/db/point.go:26-47 | a natural parent is smaller-numbered and, outside the galaxies, of smaller rank; smaller rank means smaller number |
| Points.ParentIsLowPart | pkg/db/point.go:26-47 | the parent is the low two bytes of a planet, the low byte of a star and 0 for a galaxy; the ranges of the three ranks |
| Points.FixedAddresses | pkg/db/events.go:66 | the layer 2 deposit address is twenty bytes 0x11, the zero address twenty zeros |
| Diffs.DataAsUint32 | pkg/db/diffs.go:19-29 | the shift-and-add loop reads payloads of at most four bytes as numbers, inverts the four-byte payload encoding, and panics on longer ones |
| Diffs.OperationNumbers | pkg/db/diffs.go:57-73 | operations are numbered from 1 in this order |
| BatchParser.ParseNaiveBatch | pkg/db/naive_parser.go:288-383 | the backward loop terminates and reads the batch record by record from its end, or rejects it as a whole |
| BatchTheorems.RoundTrip | pkg/db/naive_parser.go:253-383 | parsing the encoding of any well-formed transactions gives exactly those, with raw bytes and positions |
| BatchTheorems.RawPositions | pkg/db/naive_parser.go:253-295 | at which bytes of its raw data each field of a well-formed transaction is found, for every opcode |
| BatchTheorems.StripExactly | pkg/db/naive_parser.go:318-378 | after dropping any number of leading zeros the transactions are read back if and only if the zeros belong to the last operands, or to its header with another zero following |
| BatchTheorems.RoundTripStripped | pkg/db/naive_parser.go:373-378 | in particular for zeros of the last transaction's operands |
| BatchTheorems.StrippedHeaderMisread | pkg/db/naive_parser.go:318-326 | a concrete transaction that is misread once all its leading zeros are dropped |
| BatchTheorems.Conservation | pkg/db/naive_parser.go:305-381 | an accepted batch, after at most 74 implicit zeros, is exactly its transactions from last to first; n of them need 71(n-1)+65 bytes |
| BatchTheorems.ParsedWellFormed | pkg/db/naive_parser.go:305-381 | every parsed transaction is its raw bytes in the documented layout, except possibly a last one with a cut header |
| BatchTheorems.ParsedFromParser | pkg/db/naive_parser.go:310-379 | parsed raw bytes name the ship, and the proxy too unless the header is missing altogether |
| BatchTheorems.ParsedComposition | pkg/db/naive_parser.go:307-382 | a batch in front of an exactly consumed one: the latter's transactions first, then the former's at shifted positions, or nothing if the former is rejected |
| BatchTheorems.LeadingBytesReject | pkg/db/naive_parser.go:310-316 | 1 to 64 bytes in front of an exactly consumed batch, zeros or not, empty the result |
| Signing.ReverseCopy | pkg/db/naive_parser.go:103-112 | swapping in place reverses a copy of the bytes |
| Signing.VerifySignature | pkg/db/naive_parser.go:76-158 | assembles the EIP-191 message of the role's nonce and the raw data, and compares the recovered address with the role's |
| Signing.RoleColumns | pkg/db/naive_parser.go:83-99 | each of the five roles is checked against its own address column under its own nonce column, and no other number is a role |
| Signing.NormalSignatureIs | pkg/db/naive_parser.go:138-142 | 27 is taken from a recovery byte that is at least 27, and nothing else changes |
| Signing.MessageIs | pkg/db/naive_parser.go:100-131 | the message is the armor, digits that read as the exact length of the rest, the salt for chain 1, the nonce little endian and the raw data backwards |
| ByteStrings.DecimalReads | pkg/db/naive_parser.go:125-126 | the digits of a number read from the left as that number, without leading zero |
| Signing.MessageInjective | pkg/db/naive_parser.go:100-131 | equal signed messages mean equal nonces and equal raw data of whatever length |
| AzimuthEvents.EffectShape | pkg/db/events.go:224-622 | an event has one statement and one diff about its own row, or neither: owner, proxies, keys, continuity and own escapes are stopped by the point being on layer 2 (the spawn proxy by its not being on layer 1), acceptance and loss by the sponsor being on layer 2, spawning and activation by nothing |
| AzimuthEvents.EffectMeaning | pkg/db/events.go:224-622 | the literal column write is the event's intended change of the row |
| EventLaws.SpawnedLaw | pkg/db/events.go:226-236 | a point is spawned once, with its parent as sponsor; the row, and the one diff |
| EventLaws.ActivatedLaw | pkg/db/events.go:237-273 | activates an existing or new row; exactly galaxies become their own sponsor; the diff |
| EventLaws.OwnerChangedLaw | pkg/db/events.go:274-316 | the deposit address hands the point over and leaves its owner column, any other becomes its owner; stopped on layer 2; the diff |
| EventLaws.ChangedSpawnProxyLaw | pkg/db/events.go:317-365 | the deposit address moves the spawning of a star or galaxy, any other becomes the spawn proxy; stopped unless on layer 1; the diff |
| EventLaws.OwnEventLaw | pkg/db/events.go:366-488 | the other proxies and own escapes: the column and the diff of each, stopped on layer 2, panic without row |
| EventLaws.EscapeAcceptedLaw | pkg/db/events.go:489-519 | sponsor and escape columns of an existing or new row, stopped by a sponsor on layer 2; the diff |
| EventLaws.LostSponsorLaw | pkg/db/events.go:520-558 | only the present sponsor, not on layer 2, is lost; the sponsor column stays; the diff |
| EventLaws.BrokeContinuityLaw | pkg/db/events.go:559-582 | the last four bytes are the new rift; the diff, the layer 2 stop, the panics |
| EventLaws.ChangedKeysLaw | pkg/db/events.go:583-616 | which of the four words is which key, suite and life; the diff, the layer 2 stop, the panics |
| EventLaws.OtherEventsLaw | pkg/db/events.go:617-621 | DNS changes do nothing, unknown events panic |
| Runs.AzimuthStep | pkg/db/events.go:153-196 | an event panics only by its own reads or by spawning an existing row; otherwise it revises its row and logs one diff about it, or does nothing |
| NaiveEffects.Effects | pkg/db/naive_parser.go:385-886 | the queries computed from rows read beforehand, run in order, count the nonce and revise the row as if it were re-read; panics exactly on unknown opcodes and unreadable rows |
| NaiveEffects.IntendedRow | pkg/db/naive_parser.go:394-414 | row by row: at most one new row, one revised row and one nonce, also when source and target coincide |
| TxLaws.TransferLaw | pkg/db/naive_parser.go:420-499 | exactly when a transfer takes effect; owner, cleared roles, keys, life and rift afterwards with and without reset; the diffs |
| TxLaws.SpawnLaw | pkg/db/naive_parser.go:500-561 | exactly when a spawn takes effect; the new row, owned by the recipient or offered to the recipient; the diff |
| TxLaws.KeysLaw | pkg/db/naive_parser.go:562-618 | exactly when keys are configured; keys, life and rift afterwards; the diffs |
| TxLaws.EscapeLaw | pkg/db/naive_parser.go:619-651 | exactly when an escape request takes effect, the requested sponsor, the diff |
| TxLaws.CancelEscapeLaw | pkg/db/naive_parser.go:652-677 | the same for its cancellation |
| TxLaws.AdoptLaw | pkg/db/naive_parser.go:678-717 | exactly the ship that the target last asked adopts it; its columns, the diff |
| TxLaws.RejectLaw | pkg/db/naive_parser.go:718-753 | the same for a rejection |
| TxLaws.DetachLaw | pkg/db/naive_parser.go:754-789 | exactly the sponsor named in the target's row detaches it; its columns, the diff |
| TxLaws.ProxyLaw | pkg/db/naive_parser.go:790-881 | for each of the three proxies exactly when it is set, to what, and the diff |
| TxLaws.PanicLaw | pkg/db/naive_parser.go:882-884 | an accepted transaction panics exactly on an unknown opcode or an unreadable row that it reads |
| TxLaws.RejectedLaw | pkg/db/naive_parser.go:212-223 | one that is not accepted panics exactly without readable source or recoverable key, and else changes nothing |
| TxLaws.NonceLaw | pkg/db/naive_parser.go:399-414 | the nonce column of the role, and no other, goes up by one, whatever the opcode |
| Replay.PlayTx | pkg/db/naive_parser.go:212-237 | reading, checking, executing and logging one transaction is its atomic step; its diffs never lack their row |
| Runs.FoldIsRun | pkg/db/naive_parser.go:200-251 | replaying events is running their steps, batch by batch |
| Runs.NaiveEventLaw | pkg/db/naive_parser.go:200-211 | a Naive event that is no batch panics, a rejected batch does nothing |
| BatchReplay.JoinedBatches | pkg/db/naive_parser.go:200-251 | one batch y ++ x leaves the table that x and then y leave, or panics where they do; a rejected y takes an exactly consumed x with it |
| Layers.SingleWriter | pkg/db/events.go:274-437 | per step: layer 1 leaves addresses, nonces, keys, life and rift of layer 2 points alone, layer 2 those of layer 1 points but for nonces; of spawn-only points layer 2 writes the spawn address, layer 1 the rest |
| Layers.Handover | pkg/db/events.go:280-348 | over runs rows stay, dominion moves 1 to 3, 1 to 2 or 3 to 2 only, and only stars and galaxies are in dominion 3 |
| Authority.OnlyAuthorised | pkg/db/naive_parser.go:420-881 | over runs of both layers, each address, nonce and the keys of a layer 2 point change only if one of its own accepted transactions was entitled to that: owner or transfer role for the owner address and resets, owner or management role for keys and manager, owner or spawn role for the spawn proxy |
| Authority.OnlyOwnTransactions | pkg/db/naive_parser.go:212-238 | so without accepted transactions of its own its identity and nonces stay the same |
| Authority.AcceptedIsSigned | pkg/db/naive_parser.go:157 | accepted means signed by the address in the role's column of the row of that moment |
| Authority.OnlyKeyHolders | pkg/db/naive_parser.go:420-881 | over runs of both layers, any change to a layer 2 point goes back to a moment at which its owner, or its proxy for that purpose, going by the row of that moment, had signed a transaction for it |
| Layers.OnlyOwnEvents | pkg/db/events.go:559-616 | over runs the identity of a layer 1 point changes only through layer 1 events about it |
| KeyLives.RevisedKeys | pkg/db/naive_parser.go:444-479 | a transaction raises life and rift by at most one, and changes keys numerically only with life |
| KeyLives.LifeCounts | pkg/db/naive_parser.go:574-605 | over runs life and rift count modulo 2^32 the steps that change them; no such step, same key numbers |
| KeyLives.LifeIdentifiesKeys | pkg/db/naive_parser.go:574-605 | at any two moments fewer than 2^32 steps apart the same life means numerically the same keys; short of wrapping, life and rift never decrease |
| Escapes.EscapesStayConsistent | pkg/db/events.go:438-519 | over runs a point without outstanding request has requested sponsor 0 |
| Escapes.AnswersRealRequest | pkg/db/naive_parser.go:678-736 | in reachable tables an effective adoption or rejection answers a request really made to the source, unless the source is ship 0 and there is none |
| Escapes.UnaskedAdoption | pkg/db/naive_parser.go:687-709 | whatever key and recovery: with a signature by ship 0's manager, a replay from nothing in which any other point, without request, loses its sponsor to ship 0 |
| Sponsorship.SponsorshipMoves | pkg/db/naive_parser.go:678-789 | over runs of both layers, a changed sponsor goes back to the point's own spawning or activation, acceptance or loss by layer 1, adoption on an outstanding request (or by ship 0), or detachment by the present sponsor |
| Sponsorship.Births | pkg/db/naive_parser.go:500-561 | over runs, a new row is created by layer 1 spawning, activation or acceptance, or by an accepted spawn of its natural parent, and then belongs or is offered to the recipient |
| Sponsors.SponsorsStaySenior | pkg/db/naive_parser.go:619-717 | if layer 1 names smaller existing parents, over runs every sponsor exists and is smaller-numbered, or is the galaxy itself |
| Sponsors.ReplayedSponsorsEnd | pkg/db/naive_parser.go:500-561 | so following sponsors ends within as many links as the point's number |
| NonceTheorems.NonceAccounting | pkg/db/naive_parser.go:399-414 | over runs each nonce grows by exactly the number of accepted transactions of its role |
| NonceTheorems.NonceIsCount | pkg/db/naive_parser.go:212-237 | from nothing, a nonce is the number of accepted transactions of its role |
| NonceTheorems.UnsignedChangesNothing | pkg/db/naive_parser.go:219-223 | a transaction without valid signature changes neither points nor diffs |
| NonceTheorems.UnpermittedOnlyCounts | pkg/db/naive_parser.go:399-414 | an accepted transaction that its guards stop changes its own nonce by one and nothing else |
| NonceTheorems.MessageFreshness | pkg/db/naive_parser.go:83-131 | over any run two accepted transactions out of the parser have the same message if and only if they collide as headerless voting and transfer transactions |
| NonceTheorems.ReplayFreshness | pkg/db/naive_parser.go:212-238 | the same for every replay of any events |
| NonceTheorems.AllFresh | pkg/db/naive_parser.go:318-326 | messages are pairwise distinct in every replay whose transactions all carry their proxy byte |
| HeaderlessReplay.MessageAcceptedTwice | pkg/db/naive_parser.go:318-326 | whatever key and recovery: with two signatures by that key of one message, beginning with bytes 3 and 4, a replay from nothing that accepts the message twice |
| DiffLog.DiffsTellAll | pkg/db/diffs.go:43-55 | over runs a point that no new diff names has the same row at both ends but for nonces, or none at either |
| DiffLog.DiffsNameRows | pkg/db/schema.sql:99-105 | every saved diff names a row that exists |
| AddressLog.AddressIsLogged | pkg/db/diffs.go:43-55 | over runs of both layers, an address that no transfer clears is the payload of the last new diff of its operation |
| AddressLog.OwnerIsLogged | pkg/db/naive_parser.go:431-442 | the owner address always is |
| AddressLog.ClearedAddress | pkg/db/naive_parser.go:474-478 | and any other, if cleared, is the last payload logged since the last clearing, or zero |
| EventOrder.OneOrderIff | pkg/db/events.go:134-141 | two sets played one after the other are in chain order exactly when the first lies before the second |
| EventOrder.ChainOrder | pkg/db/events.go:139 | the order is by block and then log index, with every event once |
| Replay.Replica.ApplyEventEffects | pkg/db/events.go:153-196 | plays layer 1 events in one transaction and marks them, or rolls everything back |
| Replay.Replica.ApplyBatchEvent | pkg/db/naive_parser.go:200-251 | plays one batch in one transaction and marks it, or rolls everything back |
| Replay.Replica.PlayAzimuthLogs | pkg/db/events.go:130-151 | for any chunk size terminates, having played the early layer 1 events in chain order, each once; a panic leaves whole chunks, and the next chunk is the one that panics |
| Replay.Replica.PlayNaiveLogs | pkg/db/naive_parser.go:169-198 | terminates, having played everything pending in chain order, each once; a panic leaves exactly the events before the one that panics |
| Replay.Replica.PlayLogs | cmd/main.go:133-138 | succeeds exactly when the early events and then the rest play without panic, leaves that state and nothing pending; chain order if no Naive event precedes an early one; no-op on nothing pending |
| Replay.OneOrderOfEvents | pkg/db/events.go:126-141 | playing early events first is one chain order if and only if no pending Naive event precedes one of them |
| Replay.DeployedOrder | pkg/db/schema.sql:131-133 | in particular when no Naive event precedes the Naive start block |
| Replay.PrefixThenContinuation | pkg/db/events.go:130-196 | playing a prefix of the chain and later its continuation takes the events in the order of playing all at once if and only if the prefix has early events only or the continuation none |
| Replay.StagedPlay | pkg/db/events.go:130-196 | under that condition the two stages end in the state, or the panic, of playing all at once |
| Replay.Replica.CatchUp | pkg/db/events.go:90-111 | saves fetched events in order, and stops exactly at the first whose position in the chain is taken |
| Replay.Replica.PlayCatchUpPlay | cmd/main.go:118-138 | the replica itself, under that condition: playing, saving later events and playing again is one play of them all |

## Left out

- SQLite, connections and migrations: the table is a map with the schema's defaults, a transaction an atomic step.
- Checks that never fail here: address lengths (all come from 20-byte values), operation codes and event ids of diffs.
- Fetching logs over RPC, the command line, printing, HTTP and the comparison with a roller: external state only.
- Keccak, secp256k1 recovery, ed25519 and murmur3: unknown functions, or not used at all (pkg/crypto).
- Topic hashes and the decoding of indexed topics: events arrive as a datatype with their numbers and addresses decoded.
- Filling in batch data after an event was saved: events are saved with their data.
- `DataAsAddress`, `DataAsKeys`, JSON and the point getters: length checks and slices only.
- Rebuilding state from diffs: their payloads do not determine it.
- Slice sharing: byte strings are values, so two slices over one buffer are not modelled.
- Agreement with the Hoon implementation: its source is not part of this model.
