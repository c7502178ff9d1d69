# Verified models of the node's state machines and codecs

Dafny models of the parts of the node that hold state under rules or transform data, with
proofs of what every input and every run of them keeps. `dafny verify dfyconfig.toml`
checks everything.

| Component | Files | What is modelled |
|---|---|---|
| Address manager | `AddrManModel`, `AddrManProofs`, `AddrManTried`, `AddrManRuns`, `AddrManOutcomes`, `AddrManDisk`, `AddrManClass`, `AddrManCheck` | the five overlapping tables of `CAddrMan`, every operation on them, its own consistency check, and its file format |
| Keccak | `KeccakSpec`, `KeccakLanes`, `Keccak64`, `Keccak64Bits`, `KeccakSponge`, `KeccakContext` | the permutation with six lanes stored complemented and the pi step done by renaming, the streaming context, and FIPS 202 written down independently |
| InstantX | `InstantXModel`, `InstantXRuns`, `InstantXOutcomes`, `InstantXConflicts`, `InstantXExamples`, `InstantXClass` | lock requests, votes, own votes, conflicts and clean-up |
| Darksend | `DarksendModel`, `DarksendRuns`, `DarksendOutcomes`, `DarksendSpends`, `DarksendExamples`, `DarksendClass`, `DarksendQueue` | the mixing pool of a masternode and the list of announced queues |
| Base58 and big numbers | `Radix`, `Base58`, `Base58Outcomes`, `Base58Class`, `BigNum` | the digit buffer, the checksum form, addresses, MPI bytes and the compact difficulty |
| BLAKE | `BlakeSpec`, `BlakeContext`, `BlakeClass`, `BlakeBytes` | streaming, counters and padding of both widths over any compression function |
| Stake modifier | `KernelModel`, `KernelProofs`, `KernelLoops` | when a modifier is generated and which blocks it is made of |
| Small indexes | `LimitedMap`, `PageLocks` | the value-ordered bounded map and the page lock counter |

`Common` and `SortedSets` hold definitions several components share.

Each component has the same shape. A `...Model` (or `...Spec`) file says on values what an
operation computes, branch by branch. A class holds the fields the program updates in
place; its methods run the program's loops, and their postconditions equate the new fields
with what the model computes from the old ones. The remaining files prove what follows for
every input or every run. Random draws, clocks, hash functions, signature results,
masternode ranks, mempool answers and input ages are parameters over which everything is
quantified.

Where the code does less than it seems meant to do, the model follows the code. A lemma
then says exactly when it does what was meant, and another gives a run in which it does
not:

- InstantX, double spends: a complete lock is meant to stand for locked inputs. It does not
  for a rejected request, whose votes are checked against an empty transaction, nor for an
  accepted request whose votes came first. The exact condition is
  `InstantXConflicts.CompleteIsSecured`, the runs are `InstantXExamples.DoubleSpend` and
  `InstantXExamples.VotesBeforeRequest`, and disjointness holds under the condition
  (`InstantXConflicts.CompletedLocksDisjoint`).
- InstantX, clean-up: inputs locked for a rejected request are not unlocked
  (`InstantXRuns.CleanUpFrees`, `InstantXExamples.RejectedStaysLocked`). A stored request
  is under its own hash, or is the empty one that looking up a rejected one leaves behind
  (part of `InstantXRuns.EveryRunIsSafe`).
- Darksend, entries: an entry is compared with the other entries but not with its session
  (`DarksendRuns.MatchesSession`, `DarksendRuns.MismatchHappens`), and input by input with
  scripts and sequence numbers, so that an output can be spent twice
  (`DarksendSpends.EntrySpendsOnce`, `DarksendExamples.OutputSpentTwice`).
- Darksend, signatures: a refused signature can overwrite a script in the final transaction
  (`DarksendSpends.SignatureKeepsScripts`, `DarksendExamples.ScriptOverwritten`), and the
  outcome of the script check never matters (`DarksendRuns.ScriptCheckIdle`).
- Darksend, stages: an entry that fills the pool while it is still queueing leaves it
  waiting (`DarksendRuns.FilledPoolWaits`, `DarksendExamples.FullPoolWaits`).
- Base58: decoding does not restore leading zero bytes (`Base58.RoundTrip` and
  `Base58.RoundTripCheck` are equivalences).
- Compact numbers: the size has one byte, so that larger numbers are not approximated
  (`BigNum.CompactComesNear`).
- Address manager: Check_ refuses a time of zero, so runs with such times keep the tables
  but not the check (`AddrManCheck.ConsistentPasses`, `AddrManRuns.StepTimes`). `SelectTried`
  returns the position the candidate was swapped away from, so that the entry evicted need
  not be the one compared; only that the bucket is permuted and the position lies in it is
  claimed.
- limitedmap: once at its limit by another way than insertion the map keeps growing, and an
  insertion that makes room keeps the highest values only if the new one is not below all
  others
  (`LimitedMap.LimitedMap.Insert`, `LimitedMap.GrowsPastLimit`).

Notes on reading the table: `Inv` is the consistency condition of a component, `Ready` is
what the asserts in the address manager need. Address manager entries can lie in several
new buckets; "consistent" there covers the inverse pairs `vRandom` and `nRandomPos`,
`mapAddr` and `mapInfo`, reference counts, tried placement, bucket sizes and both counters.

## Model

| member | source | states |
|---|---|---|
| `AddrManRuns.EveryRunIsSafe` | src/addrman.cpp:261-384 | every sequence of Add_, Good_, Attempt_, Connected_ and GetAddr_ from the empty manager, whatever the random choices, goes through without a failing assert and ends in consistent tables with at most 256 * 64 + 64 * 64 entries; with positive times the time stamps are acceptable too |
| `AddrManCheck.EveryRunPasses` | src/addrman.cpp:431-487 | every such run with positive times ends in a manager on which Check_ returns 0 |
| `AddrManCheck.ConsistentPasses` | src/addrman.cpp:431-487 | Check_, as the walk over all tables that the code does, returns 0 on a consistent manager if and only if no time stamp is bad |
| `AddrManCheck.PassesExactly` | src/addrman.cpp:431-487 | on any tables whatever, Check_ returns 0 exactly if each entry is at its place and under its address, the counters are right, tried entries have no references and stand once in one bucket, new ones stand in as many buckets as they count, and the times are acceptable |
| `AddrManRuns.StepKeeps` | src/addrman.cpp:203-384 | each operation keeps the whole consistency condition, which says more than Check_: reference counts are from 1 to 4 and equal the number of new buckets holding the entry, every tried entry is in its own bucket once, bucket sizes are limited |
| `AddrManRuns.StepTimes` | src/addrman.cpp:431-487 | time stamps stay acceptable to Check_ exactly if the operation writes an acceptable one: Good_ a positive and Attempt_ a non-negative time |
| `AddrManRuns.AddOutcome` | src/addrman.cpp:310-365 | Add_ reports true exactly for a routable unknown address; at most one entry goes, never a tried one; all other entries keep their data; the tried table is untouched |
| `AddrManRuns.KnownEntry` | src/addrman.cpp:319-363 | hearing of a known address joins the service flags; its time stays, or becomes the announced time less the penalty (at least 0, cut to 32 bits), and never goes back while that fits into 32 bits; one reference more only for newer information on a new entry that has not four |
| `AddrManOutcomes.KnownTime` | src/addrman.cpp:319-325 | the time of a known entry becomes the announced one less the penalty (at least 0, cut to 32 bits) if and only if the announcement has a time and the stored one is missing or older, after the penalty, by more than an hour, or a day for an address not seen in the last day; otherwise it stays |
| `AddrManOutcomes.KnownReference` | src/addrman.cpp:330-363 | a known entry gets one more reference if and only if it is a new one with fewer than four, the announcement is newer than the time now stored, the draw out of 2^references is 0 and the bucket of the source does not hold it |
| `AddrManOutcomes.FreshEntryIs` | src/addrman.cpp:349-363 | a new address is stored as announced, never tried, with the time less the penalty and one reference, in the bucket of its source |
| `AddrManOutcomes.ReferBuckets` | src/addrman.cpp:355-363 | one more reference goes into the bucket of the source and no other; only a bucket of 64 gives up an entry for it |
| `AddrManRuns.AddIsFound` | src/addrman.cpp:80-91 | after Add_ a routable address is always found |
| `AddrManRuns.GoodOutcome` | src/addrman.cpp:261-308 | Good_ puts the entry into its own tried bucket with fresh statistics and no references; at most one tried entry of that bucket goes back to the new table, only if the bucket was full; nothing else changes; any other address leaves the manager as it was |
| `AddrManOutcomes.GoodMoves` | src/addrman.cpp:203-308 | a promoted entry leaves all new buckets and enters its own tried bucket; a full one gives up the entry that the scan remembers, at its place, which goes with one reference into its own new bucket if there is room and else into one the promoted entry was in; no other bucket changes |
| `AddrManOutcomes.AttemptCounts` | src/addrman.cpp:367-384 | an attempt on a stored service is counted and its time kept; nothing else changes |
| `AddrManOutcomes.ConnectionRefreshes` | src/addrman.cpp:506-524 | a connection sets the time of a stored service if and only if that is more than 20 minutes old; nothing else changes |
| `AddrManRuns.TriedSurvives` | src/addrman.cpp:149-259 | no operation ever deletes an entry of the tried table or changes its address |
| `AddrManRuns.SizeIsBounded` | src/addrman.h:123-133 | a consistent manager holds nNew + nTried entries, at most 256 * 64 + 64 * 64 |
| `AddrManProofs.EmptyIsConsistent` | src/addrman.h:391-399 | a new manager is consistent |
| `AddrManProofs.AddKeeps` | src/addrman.cpp:310-365 | Add_ restores consistency although it counts the reference before it makes room in the bucket |
| `AddrManProofs.DropRefKeeps` | src/addrman.cpp:149-201 | taking one reference out of a new bucket, and the entry with its last reference, keeps the tables consistent even while another entry has a reference counted that no bucket holds yet |
| `AddrManProofs.ReferKeeps` | src/addrman.cpp:355-363 | inserting into a bucket, after making room in a full one, settles the reference counted ahead |
| `AddrManTried.MakeTriedKeeps` | src/addrman.cpp:203-259 | MakeTried keeps consistency both when the tried bucket has room and when an entry is evicted back into a new bucket |
| `AddrManTried.NewIsHeld` | src/addrman.cpp:286-302 | the search of Good_ always finds a bucket holding a new entry |
| `AddrManTried.GoodKeeps` | src/addrman.cpp:261-308 | Good_ keeps consistency |
| `AddrManTried.GetAddrKeeps` | src/addrman.cpp:490-504 | GetAddr_ keeps consistency |
| `AddrManTried.GetAddrOutcome` | src/addrman.cpp:490-504 | the list is the data of stored entries, each at most once and no address twice; how many is the next row |
| `AddrManOutcomes.ListLength` | src/addrman.cpp:490-504 | of n entries the list holds 23 n / 100, rounded down, or 2500 if that is less |
| `AddrManModel.FirstTerribleIsFirst` | src/addrman.cpp:154-171 | ShrinkNew removes the first terrible entry in ascending order of ids |
| `AddrManModel.OldestChosenIsOldest` | src/addrman.cpp:174-200 | without a terrible entry ShrinkNew takes, of the positions drawn, the one seen least recently, the earliest on ties |
| `AddrManOutcomes.HopelessIs` | src/addrman.cpp:38-56 | an entry is terrible if it was not tried in the last minute, and is from the future, was never seen or not for 30 days, was tried three times without any success, or ten times without one in a week |
| `AddrManOutcomes.HopelessGoes` | src/addrman.cpp:149-171 | a bucket with such an entry gives up the one of lowest id |
| `AddrManOutcomes.OldestGoes` | src/addrman.cpp:173-200 | a bucket without one gives up, of the four drawn, the one seen least recently, the lowest id on ties |
| `AddrManModel.InspectPermutes` | src/addrman.cpp:125-147 | the swaps of SelectTried permute the bucket |
| `AddrManModel.SelectTried` | src/addrman.cpp:125-147 | SelectTried permutes the bucket and returns a position in it |
| `AddrManOutcomes.ScanIs` | src/addrman.cpp:125-147 | the scan remembers, of the first four places after its swaps, the entry that succeeded least recently, the first on ties, and the place it was swapped from |
| `AddrManClass.AddrMan.constructor` | src/addrman.h:391-399 | the manager starts with empty tables, consistent |
| `AddrManClass.AddrMan.Lookup` | src/addrman.cpp:80-91 | finds an address exactly if the index has it, with its id |
| `AddrManClass.AddrMan.CreateEntry` | src/addrman.cpp:93-103 | updates the four indexes as Create does |
| `AddrManClass.AddrMan.SwapRandom` | src/addrman.cpp:105-123 | exchanges two places of vRandom and their back references; the asserts on the back references hold |
| `AddrManClass.AddrMan.SelectTriedPos` | src/addrman.cpp:125-147 | the loop leaves the bucket as the specified scan does and returns its position |
| `AddrManClass.AddrMan.FindVictim` | src/addrman.cpp:149-201 | the two scans choose the specified victim |
| `AddrManClass.AddrMan.ShrinkNewBucket` | src/addrman.cpp:149-201 | removes the specified victim from the bucket, and its entry with its last reference |
| `AddrManClass.AddrMan.MoveToTried` | src/addrman.cpp:203-259 | performs MakeTried in place; its assert on the reference count holds |
| `AddrManClass.AddrMan.Good_` | src/addrman.cpp:261-308 | performs Good_ in place |
| `AddrManClass.AddrMan.Add_` | src/addrman.cpp:310-365 | performs Add_ in place and returns its answer |
| `AddrManClass.AddrMan.Attempt_` | src/addrman.cpp:367-384 | stores the time of the attempt and counts it, for a known service only |
| `AddrManClass.AddrMan.Connected_` | src/addrman.cpp:506-524 | refreshes the time if it is more than 20 minutes old |
| `AddrManClass.AddrMan.GetAddr_` | src/addrman.cpp:490-504 | performs the partial shuffle in place and returns the list |
| `AddrManClass.AddrMan.Perform` | src/addrman.cpp:261-524 | every method, called on consistent tables, leaves consistent tables |
| `AddrManDisk.RoundTrip` | src/addrman.h:289-388 | writing a consistent manager and reading the stream gives the same manager up to a one-to-one renaming of ids: same stored data, same new buckets and reference counts, same tried buckets as sets, counters unchanged (nothing lost), and it is consistent again |
| `AddrManOutcomes.OtherBucketCount` | src/addrman.h:329-388 | a file with another number of new buckets has them ignored: every new entry it lists is read with its data and one reference, in the bucket of its own source |
| `AddrManDisk.ParseFlatten` | src/addrman.h:289-328 | the stream written for any image with correct counts is parsed back to that image |
| `AddrManDisk.WhatIsWritten` | src/addrman.h:293-316 | for a consistent manager the two loops with their breaks write exactly all new and exactly all tried entries |
| `AddrManDisk.NoneLost` | src/addrman.h:351-370 | no tried bucket overflows while reading: each is filled with exactly the entries it held |
| `AddrManClass.AddrMan.Serialize` | src/addrman.h:289-328 | the loops produce the specified stream |
| `AddrManClass.AddrMan.Deserialize` | src/addrman.h:329-388 | replaces all tables by what the stream says, for exactly the streams that can be read |
| `AddrManClass.AddrMan.Reload` | src/addrman.h:289-388 | saving and loading in place ends in a consistent manager that is a renaming of the old one |
| `KeccakLanes.KeccakF` | src/keccak.c:1452-1467 | for every state and any lanes obeying the laws of bit strings, the unrolled permutation on complemented lanes equals 24 rounds of section 3.3 of FIPS 202, and the same six lanes end up complemented |
| `KeccakLanes.KfEltIsRound` | src/keccak.c:1392-1397 | one KF_ELT on lanes named r is one round, its result being named r + 1 |
| `KeccakLanes.ThetaHidden` | src/keccak.c:958-1014 | THETA on complemented lanes is the theta of section 3.2.1, with another set of lanes complemented |
| `KeccakLanes.RhoHidden` | src/keccak.c:1016-1045 | RHO on complemented lanes is the rho of section 3.2.2 |
| `KeccakLanes.KhiHidden` | src/keccak.c:1047-1135 | KHI with its mixture of AND and OR on complemented lanes is the chi of section 3.2.4, and restores the original complement mask |
| `KeccakLanes.NamedNext` | src/keccak.c:1139-1156 | each of the namings P1 to P8 is the pi of section 3.2.3 of the one before |
| `KeccakLanes.MovedBack` | src/keccak.c:1313-1347 | P8_TO_P0 in the order of its assignments moves every lane to its place |
| `KeccakLanes.EltIsD` | src/keccak.c:958-973 | TH_ELT, which groups its operands differently, is the column sum of theta |
| `KeccakLanes.Unrolled` | src/keccak.c:1452-1467 | the loop that unrolls eight rounds keeps any relation that KF_ELT advances and P8_TO_P0 closes |
| `Keccak64.Lawful64` | src/keccak.c:360-365 | 64-bit words with the macros for exclusive or, complement and rotation obey the laws |
| `Keccak64.RcIsRoundConstant` | src/keccak.c:136-149 | the 24 constants are those the shift register of section 3.2.5 of FIPS 202 produces |
| `Keccak64.Usable64` | src/keccak.c:1525-1566 | the 64-bit operations, constants and little-endian coding together satisfy everything the context needs |
| `Keccak64.AllOnes` | src/keccak.c:1525-1566 | the words keccak_init sets to all ones are complemented zeros |
| `Keccak64Bits.DecodesEncoded` | src/keccak.c:1642-1645 | decoding the eight bytes of a lane gives the lane |
| `Keccak64Bits.EncodesDecoded` | src/keccak.c:183-188 | encoding the lane decoded from eight bytes gives the bytes |
| `Keccak64Bits.LanesAreBits` | src/keccak.c:183-188 | bit i of a decoded lane is bit i of its bytes in the numbering of the padding, and bit i of encoded bytes is bit i of the lane |
| `Keccak64Bits.XorBits` | src/keccak.c:360-365 | exclusive or of words is exclusive or of each bit |
| `Keccak64Bits.Reads64` | src/keccak.c:183-188 | the words of the setup are decoded with the bits of their bytes, lowest first |
| `Keccak64Bits.Writes64` | src/keccak.c:1642-1645 | and encoded so |
| `Keccak64Bits.AddedBits` | src/keccak.c:183-188 | adding a block adds its bits to those of the words in order: bit j of word i is bit 64 i + j of the state, as in section 3.1.2 of FIPS 202 |
| `Keccak64Bits.OutputBits` | src/keccak.c:1642-1645 | the output is the bits of the words in order |
| `KeccakSpec.ThetaAt` | src/keccak.c:975-1014 | the specification of theta, lane by lane, as in section 3.2.1 |
| `Keccak64Bits.LaneOfWord` | src/keccak.c:183-188 | lane (x, y) is word x + 5 y, as in section 3.1.2 |
| `KeccakSpec.RhoAt` | src/keccak.c:1016-1045 | the rotations are those section 3.2.2 derives: every lane but (0, 0) is visited by the walk (x, y) -> (y, 2 x + 3 y) from (1, 0) at some time t below 24, and turned by (t + 1) (t + 2) / 2 |
| `KeccakSpec.PiAt` | src/keccak.c:1139-1156 | the specification of pi, lane by lane, as in section 3.2.3 |
| `KeccakSpec.ChiAt` | src/keccak.c:1070-1135 | the specification of chi, lane by lane, as in section 3.2.4 |
| `KeccakSponge.TailIsPadding` | src/keccak.c:1616-1634 | the bytes appended on closing are the extra bits and pad10*1 with the fewest zeros that fill up the block |
| `KeccakSponge.PaddedIs` | src/keccak.c:1607-1635 | the padded message is the message, its extra bits and pad10*1 of section 5.1 of FIPS 202 |
| `KeccakSponge.AbsorbAppend` | src/keccak.c:1568-1603 | absorbing whole blocks and then the rest is absorbing all of it |
| `KeccakContext.AbsorbHidden` | src/keccak.c:1568-1603 | absorbing any number of blocks on complemented lanes is absorbing them on plain lanes, complemented |
| `KeccakContext.Context.Init` | src/keccak.c:1525-1566 | the words hold the complemented zero state, the buffer is empty, and the block size fits the digest |
| `KeccakContext.Context.InputBuf` | src/keccak.c:183-188 | adds the buffer to the first words and changes no other |
| `KeccakContext.Context.PermuteWide` | src/keccak.c:1452-1467 | applies 24 plain rounds under the complement |
| `KeccakContext.Context.Core` | src/keccak.c:1568-1603 | the context absorbs the bytes, so that it stands for the message so far with them appended, for every way of cutting a message into calls |
| `KeccakContext.Context.Close` | src/keccak.c:1607-1648 | the digest is the first d bytes of the sponge of section 4 of FIPS 202 on the padded message, with the coding of lanes of the setup (for 64-bit words that of Keccak64Bits.LanesAreBits); the context then starts over |
| `InstantXRuns.EveryRunIsSafe` | src/instantx.cpp:301-399 | in every run of requests, votes, own votes and clean-ups no two votes held in any locks have equal vote hashes, all their hashes are in the map of seen votes, each is held under its own transaction and was found acceptable by rank and signature |
| `InstantXRuns.StepKeeps` | src/instantx.cpp:41-168 | each message and clean-up keeps that invariant |
| `InstantXRuns.CountIsQuorum` | src/instantx.cpp:566-578 | the count of a lock is the number of different masternodes that voted at its own height, each within the top ranks and well signed when it voted |
| `InstantXRuns.CompleteLockHasQuorum` | src/instantx.cpp:363-383 | after any run a lock counted complete has at least ten different such masternodes behind it |
| `InstantXRuns.InputsWrittenOnce` | src/instantx.cpp:363-383 | without a clean-up in between, requests and entries of locked inputs never change once set |
| `InstantXConflicts.CompleteIsSecured` | src/instantx.cpp:363-383 | a step that makes a lock complete leaves all inputs of its transaction, accepted or rejected, locked for it or reports a conflict, if and only if it is a vote on a transaction that was not rejected, or a request that is rejected, or else the transaction owned all its inputs before |
| `InstantXConflicts.CompletesHow` | src/instantx.cpp:301-399 | only an acceptable vote on a transaction, or its request seen for the first time, can make its lock complete |
| `InstantXConflicts.CompletedLocksDisjoint` | src/instantx.cpp:363-383 | two different transactions whose locks complete in such a guarded way without a report, with no clean-up in between, spend disjoint inputs, be they accepted or rejected |
| `InstantXExamples.DoubleSpend` | src/instantx.cpp:363-383 | the property fails without the guard: a transaction is accepted and voted on, another that spends the same output is rejected and voted on, and both have complete locks without any report |
| `InstantXExamples.VotesBeforeRequest` | src/instantx.cpp:65-92 | ten votes followed by the accepted request make a complete lock whose input is not locked |
| `InstantXRuns.ConflictRemovesBoth` | src/instantx.cpp:402-468 | a reported conflict dooms both locks: a clean-up at a time after all reports so far removes them, if no clean-up in between did |
| `InstantXOutcomes.LiveLocksStay` | src/instantx.cpp:440-468 | a lock is there after a clean-up if and only if it was there and its expiration is not past; it is unchanged |
| `InstantXOutcomes.RequestsStay` | src/instantx.cpp:448-462 | a clean-up removes the request and the rejection of a transaction if and only if its lock is past its expiration and the request is stored; the others stay as they are |
| `InstantXOutcomes.InputsStay` | src/instantx.cpp:448-456 | a clean-up unlocks an input if and only if a stored request whose lock is past its expiration spends it |
| `InstantXOutcomes.VotesStay` | src/instantx.cpp:458-460 | a clean-up removes a vote hash if and only if a vote with it is held by such a lock |
| `InstantXOutcomes.LiveVotesStay` | src/instantx.cpp:440-468 | after any run the votes held by locks that survive a clean-up stay |
| `InstantXOutcomes.ExpirationStays` | src/instantx.cpp:127-168 | no message or clean-up changes the expiration of a lock that is not part of a reported conflict |
| `InstantXOutcomes.NewLockExpires` | src/instantx.cpp:218-253 | a lock expires 20 minutes after the message that made it, or at once if that reports a conflict with it |
| `InstantXOutcomes.LockStays` | src/instantx.cpp:440-468 | a lock survives any run in which no conflict is reported about it and no clean-up comes after its expiration |
| `InstantXOutcomes.LockLivesTwentyMinutes` | src/instantx.cpp:440-468 | a lock made at time t survives every run without a conflict reported about it and without a clean-up after t + 1200 |
| `InstantXRuns.CleanUpFrees` | src/instantx.cpp:440-468 | a clean-up unlocks an input if and only if an accepted request spends it whose lock is past its expiration; inputs locked for a rejected request stay locked |
| `InstantXExamples.RejectedStaysLocked` | src/instantx.cpp:440-468 | the input of a rejected request stays locked after its lock expired and was removed, through every later clean-up |
| `InstantXRuns.AcceptedRequest` | src/instantx.cpp:65-92 | an accepted request is stored under its hash, locks no input, and its lock gets the height of the first input's age |
| `InstantXRuns.RejectedRequest` | src/instantx.cpp:94-123 | a request the mempool turned down is stored as rejected and claims every input not yet locked |
| `InstantXOutcomes.SeenRequestIgnored` | src/instantx.cpp:41-63 | a request seen before or not valid changes nothing |
| `InstantXOutcomes.RequestLocks` | src/instantx.cpp:218-253 | an accepted request makes a lock, or sets the height of the one there, if and only if every input is nine blocks old; the height is four above the block of the first input |
| `InstantXOutcomes.OwnVoteStored` | src/instantx.cpp:256-298 | after an accepted request the vote of this node is stored under its hash if and only if this node is a masternode with a known rank of at most 15 whose signature is good |
| `InstantXOutcomes.SeenVoteIgnored` | src/instantx.cpp:127-168 | a vote with a hash seen before changes nothing |
| `InstantXOutcomes.VoteJoins` | src/instantx.cpp:301-365 | any other is stored; it joins the lock of its transaction, made if there is none, if and only if the masternode has a rank up to 15 and the signature is good |
| `InstantXOutcomes.SenderNoted` | src/instantx.cpp:142-164 | the sender of a vote is noted if and only if it counts and its transaction is neither accepted nor rejected; its time moves 600 seconds ahead unless it is too far above the average |
| `InstantXRuns.ReportLeaves` | src/instantx.cpp:402-423 | a conflict report changes nothing but expiration times |
| `InstantXRuns.LockInputsIs` | src/instantx.cpp:103-107 | the loop gives every free input to the transaction and leaves the others with their owners |
| `InstantXModel.FirstClashIs` | src/instantx.cpp:402-423 | the conflict found is the first input locked by another transaction |
| `InstantXClass.InstantX.CheckForConflicts` | src/instantx.cpp:402-423 | lets both locks expire at the first conflicting input; reports whether there is one |
| `InstantXClass.InstantX.NewLock` | src/instantx.cpp:218-253 | creates a lock or sets the height of the existing one, unless an input is too young |
| `InstantXClass.InstantX.OwnVote` | src/instantx.cpp:256-298 | stores this node's vote if it is a ranked masternode whose signature verifies |
| `InstantXClass.InstantX.OnRequest` | src/instantx.cpp:41-126 | handles a lock request |
| `InstantXClass.InstantX.ProcessVote` | src/instantx.cpp:301-399 | adds an acceptable vote to its lock and, on a complete lock, locks the inputs or reports the conflict |
| `InstantXClass.InstantX.AverageTime` | src/instantx.cpp:425-438 | the average of the stored times, rounded towards zero; the division is defined whenever it is called |
| `InstantXOutcomes.AverageBetween` | src/instantx.cpp:425-438 | the average lies between the least and the greatest of the stored times |
| `InstantXClass.InstantX.OnVote` | src/instantx.cpp:127-168 | handles a vote message once per vote hash |
| `InstantXClass.InstantX.CleanLocks` | src/instantx.cpp:440-468 | visits every lock once and removes the expired ones with their requests, votes and locked inputs |
| `InstantXClass.InstantX.Receive` | src/instantx.cpp:41-168 | any message or clean-up on the maps keeps the invariant |
| `DarksendRuns.EveryRunIsSafe` | src/darksend.cpp:524-583 | in every reachable state of the pool sessionUsers and the entries stay within the pool size, every user left a collateral, all entries share one non-zero denomination mask; while signing the pool is full and the final transaction's outputs and inputs (previous output, sequence number) are permutations of those of the entries; while transmitting every entry input is marked signed |
| `DarksendRuns.StepKeeps` | src/darksend.cpp:53-326 | every message and timer step keeps the invariant |
| `DarksendRuns.HandedOverIsComplete` | src/darksend.cpp:524-657 | the transaction is handed to the network only when it merges a full pool with every input of every entry marked signed |
| `DarksendSpends.HandedOverIsSigned` | src/darksend.cpp:524-657 | in a run in which entries bring fresh spends and no signature comes late for a signed input, the transaction handed over spends every output once and its inputs are those of the entries with the scripts they accepted |
| `DarksendSpends.StepSound` | src/darksend.cpp:53-326 | such messages, and the timers, keep every output spent once and the final transaction with the scripts of the entries |
| `DarksendSpends.EntrySpendsOnce` | src/darksend.cpp:1016-1064 | an accepted entry leaves every output spent once if and only if its inputs spend outputs that differ from each other and from those of the entries |
| `DarksendSpends.FinalSpendsOnce` | src/darksend.cpp:545-562 | the final transaction spends every output once if and only if the entries do |
| `DarksendExamples.OutputSpentTwice` | src/darksend.cpp:1016-1064 | a reachable final transaction spends an output twice, with different sequence numbers |
| `DarksendSpends.SignatureKeepsScripts` | src/darksend.cpp:1066-1102 | a signature leaves every input of the final transaction with the script of its entry if and only if it does not bring a new script for an input that is signed already |
| `DarksendExamples.ScriptOverwritten` | src/darksend.cpp:1066-1102 | in a reachable pool a refused signature overwrites the script of a signed input in the final transaction |
| `DarksendRuns.JoinOutcome` | src/darksend.cpp:1873-1927 | a user that joins asks for the session's non-zero denomination, leaves one collateral and takes one place; one that does not join changes nothing |
| `DarksendOutcomes.AcceptsExactly` | src/darksend.cpp:53-102 | a "dsa" message lets a user join if and only if this masternode is listed and not just used, the collateral is valid, the denomination is not zero and, once someone is in, that of the session, which has fewer than three users and is queueing or accepting; nothing changes otherwise |
| `DarksendOutcomes.TakenExactly` | src/darksend.cpp:158-278 | an entry of a "dsi" message that reached the checks and passes them joins as it was sent, unsigned and with the time; with inputs it stays, costs no user, and starts the signing if it fills an accepting pool |
| `DarksendOutcomes.RefusedExactly` | src/darksend.cpp:1016-1064 | a "dsi" message changes nothing unless the session has its users, all masks agree and the transaction is sound; then one whose collateral is bad, with a null or negative input, into a full pool or with an input already held costs exactly one user |
| `DarksendRuns.DenominationsNonZero` | src/darksend.cpp:1978-2015 | the mask is non-zero exactly for one or more outputs that are all denominations |
| `DarksendOutcomes.DenominationsAre` | src/init.cpp:1174-1178 | the denominations are 1000, 100, 10, 1 and 0.1 coins with a hundred-thousandth on top |
| `DarksendRuns.SameMaskSameValues` | src/darksend.cpp:1978-2015 | two lists of denominations have equal masks exactly if they use the same values |
| `DarksendRuns.ShufflePermutes` | src/darksend.cpp:556-558 | the random swaps, whatever is drawn, permute inputs and outputs |
| `DarksendRuns.SignedMoreKeeps` | src/darksend.cpp:1066-1102 | adding signatures, whichever and in whatever order, keeps the merge |
| `DarksendRuns.MatchesSession` | src/darksend.cpp:1854-1871 | an entry is compared with the entries only: the pool agrees with the denomination of its session if and only if the entry does |
| `DarksendRuns.MismatchHappens` | src/darksend.cpp:1854-1871 | a reachable pool takes an entry of another denomination than its session's |
| `DarksendRuns.FilledPoolWaits` | src/darksend.cpp:524-535 | the entry that fills the pool starts the final transaction unless the session is still queueing |
| `DarksendOutcomes.NothingToCheck` | src/darksend.cpp:524-583 | Check does nothing unless an accepting pool is full or a signing one has all signatures |
| `DarksendOutcomes.FullSigns` | src/darksend.cpp:536-572 | a full accepting pool with an input to sign merges the entries and signs |
| `DarksendOutcomes.AllSignedHandsOver` | src/darksend.cpp:585-657 | a pool with all signatures is empty and accepting after a transaction that was turned down, empty and idle after one that was announced, and waits as it is after one accepted only |
| `DarksendExamples.FullPoolWaits` | src/darksend.cpp:524-535 | three users and three entries before the queue is seen to be complete make a pool that waits |
| `DarksendRuns.WaitingGoesOn` | src/darksend.cpp:524-583 | such a pool goes on waiting through every message but a signature that is taken |
| `DarksendRuns.ScriptCheckIdle` | src/darksend.cpp:919-955 | whether the script verifies makes no difference to AddScriptSig |
| `DarksendOutcomes.SignatureTaken` | src/darksend.cpp:1066-1102 | a new script goes into every input of the final transaction with its key, and is taken if and only if the first input with its key in some entry is unsigned; the first such entry marks it signed and nothing else changes |
| `DarksendOutcomes.KnownScriptRefused` | src/darksend.cpp:1066-1076 | a script that an entry holds is refused and changes nothing |
| `DarksendRuns.TimeoutEndsStale` | src/darksend.cpp:847-892 | the timer ends a session if and only if its stage has lasted too long or all its entries have expired |
| `DarksendOutcomes.TimerDropsOld` | src/darksend.cpp:847-892 | a session that goes on loses exactly the entries older than 30 seconds, and only while queueing or accepting |
| `DarksendOutcomes.QueueOpens` | src/darksend.cpp:897-916 | a queue opens for entries if and only if it has three users |
| `DarksendClass.GetDenominations` | src/darksend.cpp:1978-2015 | the loop over a list of levels computes the mask |
| `DarksendClass.DarksendPool.Clear` | src/darksend.cpp:382-407 | resets the pool |
| `DarksendClass.DarksendPool.Update` | src/darksend.h:402-417 | changes the state and the time of change |
| `DarksendClass.DarksendPool.Accepted` | src/darksend.cpp:1873-1927 | lets a user join or not |
| `DarksendClass.DarksendPool.IsCompatible` | src/darksend.cpp:1854-1871 | compares outputs with the entries |
| `DarksendClass.DarksendPool.Add` | src/darksend.cpp:1016-1064 | adds an entry, or refuses it in each of the cases of the source |
| `DarksendClass.DarksendPool.TakeSig` | src/darksend.cpp:1066-1102 | stores a signature in the final transaction and in the first entry that takes it |
| `DarksendClass.DarksendPool.AllSigned` | src/darksend.cpp:1105-1113 | tells whether all inputs of all entries are marked signed |
| `DarksendClass.DarksendPool.Merge` | src/darksend.cpp:545-555 | puts the inputs and outputs of all entries together in order |
| `DarksendClass.DarksendPool.DoCheck` | src/darksend.cpp:524-583 | moves the pool to signing and to transmission, and resets it at the end |
| `DarksendClass.DarksendPool.HandOver` | src/darksend.cpp:585-657 | resets the pool after the final transaction, valid or not |
| `DarksendClass.DarksendPool.ProcessAccept` | src/darksend.cpp:53-102 | handles a "dsa" message |
| `DarksendClass.DarksendPool.ProcessSubmit` | src/darksend.cpp:158-278 | handles a "dsi" message |
| `DarksendClass.DarksendPool.ProcessSign` | src/darksend.cpp:305-326 | handles a "dss" message: all its signatures in turn, then Check if one was taken |
| `DarksendClass.DarksendPool.CheckTimeouts` | src/darksend.cpp:847-892 | applies the time limits of the stages |
| `DarksendClass.DarksendPool.CheckQueue` | src/darksend.cpp:897-916 | opens a full queue for entries |
| `DarksendClass.DarksendPool.Perform` | src/darksend.cpp:53-326 | any message or timer call on the pool keeps the invariant |
| `DarksendQueue.FairAndDistinct` | src/darksend.cpp:119-153 | with a fixed number N of eligible masternodes any floor(N/5) + 1 accepted announcements in a row come from different masternodes, and no two listed announcements have the same input |
| `DarksendQueue.AcceptedExactly` | src/darksend.cpp:103-157 | an announcement that is not ready is listed and counted if and only if its masternode is known and signed it, it is at most 30 seconds old, its input is not listed, and the masternode has not announced within a fifth of the eligible number of announcements; otherwise nothing changes |
| `DarksendQueue.DropsOld` | src/darksend.cpp:836-845 | the timer drops exactly the announcements more than 30 seconds old |
| `DarksendQueue.QueueList.Process` | src/darksend.cpp:103-157 | accepts, ignores or counts an announcement |
| `DarksendQueue.QueueList.Drop` | src/darksend.cpp:836-845 | erases exactly the expired announcements, keeping the order |
| `Base58.BufferFits` | src/base58.cpp:113-114 | for every length n the buffer of 138 n / 100 + 1 digits has room: 256^n <= 58^(138 n / 100 + 1) |
| `Base58.RoundTrip` | src/base58.cpp:22-138 | decoding the encoding of any bytes gives them back if and only if they do not begin with a zero |
| `Base58.DecodeEncode` | src/base58.cpp:22-138 | decoding the encoding of any bytes gives them without their leading zeros |
| `Base58.EncodeDecode` | src/base58.cpp:22-138 | a text in the alphabet that does not begin with a 1 is decoded, and its bytes encode to it again |
| `Base58Outcomes.EncodeWrites` | src/base58.cpp:106-138 | the encoding is a 1 for each leading zero byte, followed by digits of the same value without a leading 1 |
| `Base58Outcomes.FormDecodes` | src/base58.cpp:22-70 | spaces, 1s, digits and spaces are decoded to the number that the digits denote, without its leading zero bytes |
| `Base58Outcomes.DecodesExactly` | src/base58.cpp:22-70 | a text up to its first null is decoded if and only if it has that form |
| `Base58.RoundTripCheck` | src/base58.cpp:148-172 | with any checksum function the round trip holds if and only if the bytes followed by their checksum do not begin with a zero |
| `Base58Outcomes.CheckedExactly` | src/base58.cpp:156-172 | with a checksum those texts are read that decode to the bytes followed by their checksum, and no others |
| `Base58.AddressSurvives` | src/base58.cpp:253-285 | the address of any key or script id, on either network, is read back as that id |
| `Base58.AddressesDiffer` | src/base58.cpp:253-285 | different destinations have different addresses |
| `Base58Outcomes.AddressExactly` | src/chainparams.cpp:112-113 | a text is read as a key address if and only if it is checked, of 20 bytes after the byte 50, or 73 on the test net; as a script address after 85 or 196 |
| `Base58Class.CarryIsZero` | src/base58.cpp:117-125 | the carry is zero after the inner loop |
| `Base58Class.Multiply` | src/base58.cpp:117-126 | the inner loop turns the buffer's value v into 256 v plus the byte, with digits below 58 |
| `Base58Class.EncodeBase58` | src/base58.cpp:106-138 | the loops over the digit buffer compute the encoding |
| `Base58Class.DecodeBase58` | src/base58.cpp:22-70 | the loops over the characters compute the decoding, or fail |
| `Base58Class.Address.Set` | src/base58.cpp:253-261 | stores prefix and id of a key or script, and refuses no destination |
| `Base58Class.Address.ToString` | src/base58.cpp:214-218 | the encoding of version and data |
| `Base58Class.Address.SetString` | src/base58.cpp:194-208 | splits decoded bytes into version and data, or clears both |
| `Base58Class.Address.Get` | src/base58.cpp:274-285 | the destination that the prefix tells |
| `Base58Class.SendAddress` | src/base58.cpp:194-285 | set, written, read and got, a destination is the same |
| `BigNum.MpiRoundTrip` | src/bignum.h:294-319 | setvch undoes getvch for every number, negative ones included |
| `BigNum.MpiUnique` | src/bignum.h:294-319 | bytes of that form are those of the number they stand for |
| `BigNum.CompactRounds` | src/bignum.h:321-344 | for a non-negative number of at most 255 MPI bytes, decoding its compact form gives a value not above it, exact up to size 3 and less than 256^(size - 3) away otherwise, and encoding that value gives the same compact word |
| `BigNum.CompactComesNear` | src/bignum.h:321-344 | a non-negative number is that near to what its compact form stands for if and only if it has at most 255 MPI bytes |
| `BigNum.CompactSign` | src/bignum.h:321-344 | a negative number is treated as the positive one but for the sign |
| `BigNum.CBigNum.SetFromCompact` | src/bignum.h:321-331 | overwrites the number by what the compact word stands for |
| `BigNum.CBigNum.ToCompact` | src/bignum.h:333-344 | the compact word of any number |
| `BlakeContext.CloseFeedsSchedule` | src/blake.c:839-889 | after any pieces of a message, close has fed the compression function exactly the blocks of the padded message, each with the number of message bits hashed up to it, or zero for a block without any |
| `BlakeContext.FedIsSchedule` | src/blake.c:801-889 | the same for every whole message |
| `BlakeContext.PreparedCount` | src/blake.c:852-866 | through all the wrap-around cases of close the counter of the last block with message bits is their number |
| `BlakeContext.PaddedIs` | src/blake.c:839-889 | the padded message is the message bits, a 1, the fewest zeros, the closing bit and the length in two big-endian words, as in section 2.1.3 of the SHA-3 proposal BLAKE |
| `BlakeContext.UpdateJoin` | src/blake.c:801-836 | bytes given one after the other are as good as given at once |
| `BlakeContext.UpdateGood` | src/blake.c:801-836 | after any bytes the context holds the part of a block, the counter of the blocks done and has fed those blocks |
| `BlakeSpec.FillerIsPadding` | src/blake.c:852-885 | what close appends before the length is the padding, ending where the length begins |
| `BlakeBytes.LengthIs` | src/blake.c:839-889 | the length field denotes the number of bits, in 8 or 16 bytes, the most significant first |
| `BlakeBytes.OutputWord` | src/blake.c:886-889 | the output is the words of the chain value in order, each with its most significant byte first |
| `BlakeClass.Context.Init` | src/blake.c:791-798 | an empty message with the initial value |
| `BlakeClass.Context.Take` | src/blake.c:801-836 | the loop over the input updates buffer, counter and chain value as specified |
| `BlakeClass.Context.Finish` | src/blake.c:839-889 | the two cases of close, with one or two more blocks |
| `BlakeClass.Context.Write` | src/blake.c:801-836 | the context stands for the message so far with the bytes appended |
| `BlakeClass.Context.AddBitsAndClose` | src/blake.c:1050-1054 | the output is the chain value after the scheduled blocks of everything written and the extra bits; the context starts over |
| `KernelProofs.ComputeSelects` | src/kernel.cpp:112-162 | on a known chain with a generated modifier the computation never fails; round r picks, among the candidates not picked and stamped no later than its stop time, the one with the smallest selection hash (the earliest on ties), or the earliest unpicked one if there is none; bit r of the modifier is that block's entropy bit |
| `KernelProofs.NewWhenLater` | src/kernel.cpp:112-128 | on a known chain with a generated modifier a new one is made if and only if the last block lies in a later interval than the last generating one; otherwise that one's modifier is kept |
| `KernelProofs.GenesisGenerates` | src/kernel.cpp:112-120 | genesis generates the modifier 0 |
| `KernelProofs.CandidatesAre` | src/kernel.cpp:130-144 | the candidates are the longest part at the end of the chain in which no block is stamped before the start |
| `KernelProofs.StakeIsFavoured` | src/kernel.cpp:80-88 | the selection hash of a proof-of-stake block is divided by 2^32, rounded down; that of another is taken whole |
| `KernelProofs.RoundsPick` | src/kernel.cpp:148-162 | no round fails and no candidate is picked twice |
| `KernelProofs.BitsAre` | src/kernel.cpp:158-159 | bit r is the entropy bit of pick r, and all bits beyond the last round are zero |
| `KernelProofs.ScanPicks` | src/kernel.cpp:58-97 | the scan with its early exit ends at the specified pick |
| `KernelProofs.SortedSorts` | src/kernel.cpp:130-144 | the candidates are sorted by time and hash, and permuted |
| `KernelProofs.GrownChain` | src/kernel.cpp:26-37 | on every chain grown from genesis the last modifier is found, and it is that of the last block |
| `KernelProofs.ModifierOfAncestor` | src/kernel.cpp:112-128 | each block has the modifier of its nearest generating ancestor, itself included |
| `KernelProofs.GeneratedApart` | src/kernel.cpp:121-128 | the interval of a generating block comes before that of the parent of the next generating block, whether or not the blocks were all known |
| `KernelProofs.GeneratesWhenLater` | src/kernel.cpp:112-128 | on a grown chain whose blocks were known a block generates a modifier if and only if its parent lies in a later interval than the last generating block; otherwise it keeps that one's |
| `KernelProofs.SectionsGrow` | src/kernel.cpp:40-44 | section lengths never decrease, and the last is three times the first |
| `KernelProofs.SectionIs` | src/kernel.cpp:40-44 | section n is 120 times 63, divided by 63 + 2 (63 - n) and rounded down |
| `KernelProofs.RoundsStop` | src/kernel.cpp:148-153 | the stop times of the rounds increase, none after the start of the current interval, and exactly there only that of the last round |
| `KernelLoops.GetLastStakeModifier` | src/kernel.cpp:26-37 | the walk back finds the last generating block or fails |
| `KernelLoops.GetSelectionInterval` | src/kernel.cpp:47-53 | the sum of the 64 sections |
| `KernelLoops.SelectBlock` | src/kernel.cpp:58-97 | the loop computes the scan |
| `KernelLoops.ComputeNext` | src/kernel.cpp:112-189 | the walk over the candidates and the rounds compute the modifier, or keep the old one within an interval |
| `LimitedMap.LimitedMap.Insert` | src/limitedmap.h:36-49 | keeps the index; a known key changes nothing, a new one is added, making room by dropping an entry of lowest value when it would reach the limit; with a limit of at least 2 the size is below it after adding if and only if it was before; where room was made, the highest values are kept if and only if the new value is at least the lowest old one |
| `LimitedMap.LimitedMap.Erase` | src/limitedmap.h:50-66 | keeps the index and removes the key; the search always finds it |
| `LimitedMap.LimitedMap.Update` | src/limitedmap.h:67-86 | keeps the index and gives a present key its new value |
| `LimitedMap.LimitedMap.SetMaxSize` | src/limitedmap.h:88-98 | keeps the index and, for s > 0, at most s entries, all at least as high as those dropped |
| `LimitedMap.LimitedMap.Search` | src/limitedmap.h:52-61 | the search through the equal range finds the key's own entry, so the "shouldn't ever get here" branches are dead |
| `LimitedMap.RoomForNew` | src/limitedmap.h:41-46 | dropping the lowest old entry for a new one keeps the highest values if and only if some old value is not above the new one |
| `LimitedMap.GrowsPastLimit` | src/limitedmap.h:36-49 | a map cut down to its limit grows past it |
| `PageLocks.LockedPageManager.LockRange` | src/allocators.h:44-64 | every page of the range counts one more range; a page is locked exactly when it gets its first |
| `PageLocks.LockedPageManager.UnlockRange` | src/allocators.h:66-87 | undoes a lock of the same range, whatever was locked in between; the asserts hold, and a page is unlocked exactly with its last range |
| `PageLocks.LockedPageManager.GetLockedPageCount` | src/allocators.h:90-94 | the number of pages locked at system level, none when nothing is outstanding |
| `PageLocks.LockedIffTouched` | src/allocators.h:44-87 | a page is locked if and only if an outstanding range has a byte in it |
| `PageLocks.MaskedIsPage` | src/allocators.h:32-35 | and-ing an address with the page mask, for pages of 2^k bytes and addresses of any width, gives the base address of its page, the page number times the page size |
| `PageLocks.CoversTouched` | src/allocators.h:44-53 | the pages from that of the first to that of the last byte are those in which the range has a byte |

## Left out

- Everything around the state machines: sockets, relaying, logging, locks and threads, the
  database, the wallet, the user interface. A message or timer call is one atomic step.
- CAddrMan::Select_ and GetChance (src/addrman.cpp:58-78, 386-428): floating point, and
  termination only with probability one.
- The bucket hashes, the routability test and Base58Check's double SHA-256 are arbitrary
  functions; the service flags are a set of bits. Ids, attempt counts and time differences
  are unbounded integers, while the stored 32-bit `nTime` wraps.
- AddrManClass.AddrMan.Serialize: for a consistent manager, as every run leaves it
  (`AddrManRuns.EveryRunIsSafe`). What the breaks in the loops make of wrong counters is not
  modelled.
- AddrManClass.AddrMan.Deserialize: a stream that ends early, has an index that is negative
  or more new buckets than the 256 of the manager is refused, where the program throws or
  has no defined behaviour; nothing is claimed of the half-loaded tables the program leaves
  behind then. Fewer buckets than 256 are read as the program does
  (`AddrManOutcomes.OtherBucketCount`), but no consistency is claimed for them.
- Keccak's 32-bit path with interleaved halves and the other unrolling factors; the
  permutation is proved for every representation of lanes that obeys the laws of bit
  strings, and instantiated for 64-bit words. The byte of extra bits is written with
  division instead of masks.
- InstantX: the calls that disconnect blocks and inputs, the count of complete locks kept
  for the wallet, and relaying. Vote hashes are the 256-bit sum the program computes;
  different votes may share one, and then the second is ignored. IsIXTXValid, the script
  checks and the signature check of a vote are parameters; the order in which their answers
  are asked for is kept. `nExpiration` and the heights are unbounded integers.
- Darksend: the client side, the fee for spoiling a session, and the broadcast of the final
  transaction. std::random_shuffle is the sequence of swaps with arbitrary draws. Whether a
  transaction passes the mempool's test is a parameter, and so is the result of script
  verification inside SignatureValid.
- DarksendQueue.QueueList.Process: announcements that say the queue is ready only concern
  clients and are not modelled.
- DecodeBase58 after line 70 cannot be reached. Characters are single bytes; white space is
  that of the C locale.
- Big numbers: the OpenSSL functions behind the methods are taken to convert MPI bytes as
  that format says. Sizes stay below 2^32. How near a compact form comes is stated for
  numbers that are not negative; `BigNum.CompactSign` carries it over to the others.
- BLAKE's compression function is an arbitrary function of chain value, block and counter.
  Messages are sequences of bytes of any length with up to seven more bits, the counter
  wrapping as its words do.
- Kernel: the hash function of a selection is arbitrary; block times are not negative and
  integers are unbounded, apart from the 64 rounds. std::sort is an insertion sort, whose
  result is the only sorted permutation. The interval is the 120 seconds the program
  compiles in. ComputeStakeModifierV2, the kernel hash checks and the printed selection map
  are left out.
- LimitedMap.LimitedMap.Insert: not for a limit of one on an empty map, where the program
  would read the first element of an empty index. Iterators are keys.
- PageLocks.LockedPageManager.LockRange: pages are numbered instead of named by their base
  address (`PageLocks.MaskedIsPage` relates the two), and ranges do not wrap around the
  address space. An unlock names a range locked before, as the assert in the program
  demands.
- Table data and internals of the other hash functions, the elliptic curve and cipher
  wrappers, the database, start-up and user interface code.
