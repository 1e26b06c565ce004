# Verified models of the AssureCode money path

A Dafny model of what AssureCode does with evidence and money: the tamper-evident ledger, the
settlement protocol with its payout leg, event delivery, repository provisioning, and three small
algorithms. Each part is modelled branch by branch and proved against independent definitions.

- **Ledger.** `Canonical` prints RFC 8785 text, `CanonicalParser` reads it back, `CanonicalEquality`
  says when two values print alike, `CanonicalText` what the text looks like, `SparseArrays` what holes
  print as. `Merkle` holds the level-by-level tree beside the recursive definitions of section 2.1 of
  RFC 6962; `MerkleSecurity` proves binding and soundness. `Chain` is the hash chain and its check,
  `Leaf`, `LedgerRoots` and `LedgerStore` the client object over its two tables, `LegacyAnchor` the
  sealing of rows nobody can recompute. SHA-256 is any function to 32 bytes: where injectivity would be
  needed, the conclusion offers two different inputs with one digest, the first among what one side
  hashed and the second among what the other did.
- **Settlement.** `Tables` has one function per SQL statement and the same statements as methods over
  the tables in place. `Settlement` is the protocol as a step system: every statement, transaction and
  outside call is one step, any number of attempts run side by side, each write can take effect and
  still be reported as an error, and an attempt can die between any two steps. A step that is not
  enabled changes nothing, so every list of steps is a run. `SettlementSafety`, `SettlementEvidence`,
  `SettlementEntries` and `SettlementOnce` hold the invariants, `SettlementRuns` and `PayoutRuns` what
  undisturbed and what clashing attempts do, `PayoutSafety`, `PayoutSweeps` and `PayoutPort` the
  payouts, `Oracle` the verdict. Positions in a run's history are carried along as history variables;
  nothing the worker does depends on them.
- **Delivery.** `RedisStreams`, `KafkaPartition` and `Retries` for the two buses, `OutboxRelay` for the
  outbox pump.
- **Provisioning.** `Provisioning` for the resumable row, `ProvisioningOverlap` for attempts side by side,
  `RepoName` for choosing its name.
- **Algorithms.** `StatementSplitter`, `ThresholdSweep`, `Complexity`.

## Where the code and its description part

- At-most-once release (the header of `claimSettlement`) is not a property of every interleaving. The
  FAILED write is not guarded by status and is made twice by one failing attempt; and `start` subscribes
  before it sweeps. `SettlementRuns` gives both runs. `SettlementOnce.ReleasedOnceIff` says exactly when
  the property holds of a run: when no commit takes effect whose row is already RELEASED.
  `ReleasedAtMostOnce` derives it from an assumption stated openly, `NeverOverlaps`: no two attempts on
  one contract are between look-up and commit at once.
- A publish that fails after the commit sends a completed settlement to the catch block, which marks it
  FAILED. `PayoutSweeps` says exactly when a payout sweep selects it again: when another settlement of
  the contract has landed since, which needs another held row.
- A provisioning row can be COMPLETE with its contract inactive for good. Exactly three steps lead
  there: a crash or a failed write where ACTIVE is to be written, and a COMPLETE write that lands but
  reports an error.
- The header of `attemptProvisioning` says that attempts racing each other converge. They never create
  anything twice, but a late save can turn a COMPLETE row of an ACTIVE contract back, and if its attempt
  then dies the row is never COMPLETE again. `ProvisioningOverlap` says exactly when ACTIVE implies
  COMPLETE.
- Payouts are keyed by contract, so a second escrow row of a contract is never paid out.
- `append_ledger` unlocks before the surrounding transaction commits, so two appends can link to one head.
- A Redis entry whose envelope is not JSON, is null, or has no timestamp that reads as a time is never
  acknowledged or dead-lettered; a Kafka value of the last two kinds holds its partition up. The lag of
  such an envelope is not a finite number, and a prom-client histogram throws a TypeError for it; the
  library is not part of this model. Kafka consumers that die before a first commit skip what they were
  given.
- The stored score has two decimals, so 84.995 passes a gate described as 85.
- The threshold sweep never tries accepting or refusing everything, and so misses the optimum exactly
  when every midpoint costs more than one of these.
- The splitter looks one character back for a backslash, so a quote after an escaped backslash does not
  close its string; only there does it differ from a reading that counts backslashes.
- An array with holes is printed, not refused: a hole is nothing between its commas.

## Model

| member | source | states |
|---|---|---|
| `Merkle.PairUp` | packages/ledger-client/src/merkle.ts:98-106 | The inner loop gives the next level: neighbours hashed in pairs, an odd last node promoted as it is |
| `Merkle.BuildLevels` | packages/ledger-client/src/merkle.ts:91-112 | The levels built by the loop are those of the recursive definition, the single EMPTY_ROOT level included |
| `Merkle.RootIsMthOver` | packages/ledger-client/src/merkle.ts:91-118 | For every list of leaf hashes the bottom-up pair-and-promote root equals the recursion that splits at the largest power of two below n |
| `Merkle.RootIsMth` | packages/ledger-client/src/merkle.ts:55-118 | Over hashed entries `computeRoot` is MTH of section 2.1 of RFC 6962, for every list including the empty one |
| `Merkle.MthOfNextLevel` | packages/ledger-client/src/merkle.ts:97-109 | Pairing a level and promoting its odd node leaves the recursive root unchanged |
| `Merkle.SplitIsLargest` | packages/ledger-client/src/merkle.ts:91-118 | The split point used is the largest power of two below n, as section 2.1 of RFC 6962 asks |
| `Merkle.BuildInclusionProof` | packages/ledger-client/src/merkle.ts:128-163 | RangeError exactly for an index outside the tree; otherwise the proof carries index, count, leaf, root and the path read off the levels |
| `Merkle.LevelPathIsAuditPath` | packages/ledger-client/src/merkle.ts:139-154 | The path read off the levels is PATH of section 2.1.1 of RFC 6962, with the side of each sibling, for every tree and leaf |
| `Merkle.LevelPathIsShort` | packages/ledger-client/src/merkle.ts:139-154 | A proof in a tree of up to 2^e leaves has at most e steps |
| `Merkle.SidesMean` | packages/ledger-client/src/merkle.ts:182-191 | A left sibling is hashed before what has been carried up and a right one after it, behind the byte 1 |
| `Merkle.VerifyInclusionProof` | packages/ledger-client/src/merkle.ts:172-192 | True exactly when the leaf, the root and every sibling decode to 32 bytes and the path climbs from the leaf to the root |
| `Encoding.HexRoundTrip` | packages/ledger-client/src/merkle.ts:145-161 | Hex decoding undoes hex encoding, which the proof format relies on |
| `MerkleSecurity.RootBinding` | packages/ledger-client/src/merkle.ts:55-63 | Two entry lists with one MTH are equal, of whatever lengths, or the inputs hashed for the two trees contain a collision |
| `MerkleSecurity.ComputedRootBinding` | packages/ledger-client/src/merkle.ts:91-118 | The same for the roots the code computes |
| `MerkleSecurity.ClimbReachesRoot` | packages/ledger-client/src/merkle.ts:182-191 | Any path of any length that climbs from a leaf to a root is the audit path of that entry, or yields two different inputs with one digest; the two prefixes settle the too-long and too-short paths |
| `MerkleSecurity.InclusionSoundness` | packages/ledger-client/src/merkle.ts:172-192 | If a proof is accepted for an entry against a computed root then the entry is one of the list and the path is the one the code builds for it, or the proof yields a located collision |
| `MerkleSecurity.BuiltProofIsAccepted` | packages/ledger-client/src/merkle.ts:128-192 | Every proof that is built is accepted against the root of its own tree |
| `Keyed.CompareCodeUnits` | packages/ledger-client/src/canonical.ts:82-90 | The result is negative exactly when at the first difference the first text ends or has the smaller code unit, positive exactly the other way round, and zero for equal texts |
| `Keyed.LessIff` | packages/ledger-client/src/canonical.ts:82-90 | The order used for sorting is that one: ascending code units, a prefix first |
| `Keyed.LessTotal` | packages/ledger-client/src/canonical.ts:82-90 | The order is total: two different keys compare one way or the other |
| `Keyed.LessTransitive` | packages/ledger-client/src/canonical.ts:82-90 | The order is transitive |
| `Keyed.SortedUnique` | packages/ledger-client/src/canonical.ts:153-156 | Two strictly sorted member lists with the same members are the same list |
| `Keyed.SortIgnoresOrder` | packages/ledger-client/src/canonical.ts:153-156 | Sorting members with distinct keys gives one result, whatever order they were inserted in |
| `Canonical.SucceedsIffCanonicalizable` | packages/ledger-client/src/canonical.ts:112-158 | Printing succeeds exactly when everything below is null, a boolean, a finite number, a string, an array without holes or an object, taken as `Object.keys` lists it; BigInt, undefined, functions, symbols, dates and numbers that are not finite are refused |
| `SparseArrays.SparseIsReadableIff` | packages/ledger-client/src/canonical.ts:139-142 | What is printed for an array with holes reads back as JSON exactly when there is no hole, or the array is a single one, which prints as the empty array does |
| `Canonical.RefusedBecause` | packages/ledger-client/src/canonical.ts:98-151 | Each kind of value that is refused is refused for its own reason |
| `Canonical.SerializeIsClean` | packages/ledger-client/src/canonical.ts:92-97 | Canonical text holds no control character, hence no raw line feed, and no lone surrogate |
| `CanonicalText.PrintedInOrder` | packages/ledger-client/src/canonical.ts:152-157 | In the order in which they stand in the text, the keys of every object at any depth ascend by code units |
| `CanonicalText.EscapesAreShortest` | packages/ledger-client/src/canonical.ts:92-97 | No JSON text for a string without lone surrogates is shorter than the printed one: only what must be escaped is |
| `CanonicalText.PrintsForInstance` | packages/ledger-client/src/canonical.ts:112-158 | One object with members inserted the wrong way round, a line feed and a -0, spelled out |
| `CanonicalParser.RoundTrip` | packages/ledger-client/src/canonical.ts:112-158 | An independent JSON reader recovers every printable value from its canonical text, whatever may follow the text |
| `CanonicalParser.ParseCanonicalize` | packages/ledger-client/src/canonical.ts:161-163 | Reading a whole canonical text gives the value back with members sorted and -0 read as 0 |
| `CanonicalEquality.SameIsNormalEqual` | packages/ledger-client/src/canonical.ts:112-158 | Two values are equal as JSON, member order and the sign of zero aside, exactly when their normal forms are equal |
| `CanonicalEquality.CanonicalFormDecidesSame` | packages/ledger-client/src/canonical.ts:161-163 | Two values with distinct keys have one canonical form if and only if they are equal as JSON: the printer is injective up to that |
| `CanonicalEquality.MemberOrderIsIrrelevant` | packages/ledger-client/src/canonical.ts:152-157 | Permuting the members of an object never changes its canonical form |
| `CanonicalEquality.CanonicalizeIsIdempotent` | packages/ledger-client/src/canonical.ts:161-163 | Printing what was read back from canonical text gives the same text |
| `Encoding.Utf8OfEachWidth` | packages/ledger-client/src/index.ts:56-60 | One character of each width, byte by byte |
| `Encoding.Utf8Injective` | packages/ledger-client/src/index.ts:56-60 | UTF-8 loses nothing on strings without lone surrogates |
| `Encoding.Utf8Fixes` | packages/ledger-client/src/legacy-anchor.ts:100 | A string without lone surrogates and without U+FFFD shares its bytes with no other string at all |
| `Encoding.Utf8ForgetsLoneSurrogates` | packages/ledger-client/src/index.ts:56-60 | Without a condition it fails: two different lone surrogates encode to the same bytes |
| `Chain.CheckRow` | packages/ledger-client/src/index.ts:259-281 | Which of the branches a row takes, and the failure it leaves |
| `Chain.VerifyChainDetailed` | packages/ledger-client/src/index.ts:243-287 | The failures in order, the count of certified rows, the count of unverifiable rows, and valid exactly when every row links and every version-2 row re-hashes and is in canonical form; it throws exactly when some re-hashing row's payload cannot be printed |
| `Chain.RowFailuresAre` | packages/ledger-client/src/index.ts:259-281 | The failures of a row spelled out: a broken link, a wrong hash of canonical text, line feed and previous hash, or a payload not in canonical form, each under the row's id |
| `Chain.NoFailuresIffValid` | packages/ledger-client/src/index.ts:249-286 | The list of failures is empty if and only if the chain is valid |
| `Chain.ThrowingIsZero` | packages/ledger-client/src/index.ts:269 | No row makes the check throw exactly when no re-hashing row has an unprintable payload |
| `Chain.NewRowIs` | infra/migrations/postgres/V009__canonical_hash_and_merkle.sql:154-161 | The inserted row column by column: id, contract, action, the payload as JSON, its canonical text, version 2, the head of the chain or GENESIS, and the hash of that line |
| `Chain.NewRowIsSound` | infra/migrations/postgres/V009__canonical_hash_and_merkle.sql:112-168 | The row the stored procedure writes re-hashes under the client's formula and is in canonical form |
| `Chain.ValidExtend` | packages/ledger-client/src/index.ts:249-284 | A longer chain is valid if and only if the shorter one is, the new row links to its head, and the row is legacy or certified |
| `Chain.AppendKeepsValid` | packages/ledger-client/src/index.ts:87-133 | Appending to a valid chain, whatever it holds, gives a valid chain with one certified row more and no unverifiable one |
| `Chain.AppendedChainsVerify` | packages/ledger-client/src/index.ts:87-133 | Any sequence of appends from GENESIS verifies, with every row certified and none unverifiable |
| `Chain.AppendsFromOneHeadFork` | infra/migrations/postgres/V009__canonical_hash_and_merkle.sql:129-165 | The advisory lock is released before the surrounding transaction commits; two appends that read one head leave a chain that is valid if and only if the first hash repeats that head |
| `Chain.ChainInputInjective` | packages/ledger-client/src/index.ts:56-60 | The hashed line canonical + LF + previous splits in one way only |
| `Chain.HeadBindsHistory` | packages/ledger-client/src/index.ts:243-287 | Two valid chains without unverifiable rows and with one last hash have the same length and, row by row, the same canonical text and hashes, or their inputs contain a collision |
| `Chain.SameHistorySamePayloads` | packages/ledger-client/src/index.ts:269 | The same history means payloads equal as JSON values |
| `Chain.ChainIgnoresLabels` | packages/ledger-client/src/index.ts:249-286 | The chain binds no more than that: changing ids, contracts and action types of any rows changes neither its validity nor its head |
| `Leaf.LeafExistsIff` | packages/ledger-client/src/index.ts:304-314 | A row has a leaf exactly when its payload can be printed |
| `Leaf.LeafReadsAs` | packages/ledger-client/src/index.ts:304-314 | Reading a leaf's text gives exactly six members: the id in decimal, contract, action, payload and the two hashes, each under its own name |
| `Encoding.DecimalReads` | packages/ledger-client/src/index.ts:306 | Decimal digits stand for their number and do not begin with a zero |
| `Leaf.LeafBindsRow` | packages/ledger-client/src/index.ts:304-314 | Two rows with one leaf agree in all six fields the leaf names, the payload as a JSON value |
| `LedgerRoots.RootIsTreeHead` | packages/ledger-client/src/index.ts:317-324 | The stored root is the tree head over the UTF-8 text of each row's leaf, in order |
| `LedgerRoots.StoredRootFixesRows` | packages/ledger-client/src/index.ts:317-344 | Equal stored roots, even of different leaf counts, mean the same rows in all six fields, or a located collision |
| `LedgerRoots.AcceptedRowWasRooted` | packages/ledger-client/src/index.ts:423-433 | A proof for a row is accepted against a stored root only if the row is one of those rooted, or a collision is shown |
| `LedgerRoots.RowProofIsAccepted` | packages/ledger-client/src/index.ts:423-433 | The proof built for a row of a chain is accepted against the root of that chain |
| `LedgerStore.ChainsAfterAppend` | packages/ledger-client/src/index.ts:220-226 | An append adds its row to its own contract's chain and leaves every other chain as it is |
| `LedgerStore.ChainOfAscending` | packages/ledger-client/src/index.ts:220-226 | Reading one contract keeps ids ascending, so the last row has the greatest id |
| `LedgerStore.LeavesOf` | packages/ledger-client/src/index.ts:320-321 | The leaves of a chain in order, unless some payload cannot be printed |
| `LedgerStore.AppendRow` | packages/ledger-client/src/index.ts:100-108 | Refuses exactly an unprintable payload; otherwise the row has the id, contract, action and payload given, the hash over the head of that contract's chain, that chain is longer by it, and every other chain is as it was |
| `LedgerStore.RootRow` | packages/ledger-client/src/index.ts:321-343 | The root, count and greatest id to store, unsigned; refused exactly when some row cannot be printed |
| `LedgerStore.MaxLedgerIdIsGreatest` | packages/ledger-client/src/index.ts:323 | The id stored with a root is the greatest of its rows |
| `LedgerStore.ProveEntry` | packages/ledger-client/src/index.ts:423-433 | Not found exactly when no row of the contract has the id; otherwise a proof that is accepted against the chain's present root |
| `LedgerStore.LedgerClient.Append` | packages/ledger-client/src/index.ts:87-133 | The same in place, with the id counter; roots are untouched |
| `LedgerStore.CoversGrown` | packages/ledger-client/src/index.ts:321-326 | A root computed from a chain as it was read covers a prefix of every chain grown from it |
| `LedgerStore.LedgerClient.UpsertRoot` | packages/ledger-client/src/index.ts:326-343 | The second of the two statements, whatever was appended since the first: the root is stored unsigned; the invariant, kept by every method, is that each stored root covers a prefix of its chain |
| `LedgerStore.LedgerClient.ComputeAndStoreRoot` | packages/ledger-client/src/index.ts:317-344 | With nothing appended between its two statements: the stored root becomes the present chain's, and its signature is cleared; every other root stays |
| `LedgerStore.LedgerClient.StoreRootSignature` | packages/ledger-client/src/index.ts:360-386 | Stored exactly when the root and count it was made over are the stored ones; the invariant is that a stored signature always covers the stored root and count |
| `LedgerStore.LedgerClient.GetInclusionProof` | packages/ledger-client/src/index.ts:423-433 | The same as `ProveEntry`, for the contract's present chain |
| `LegacyAnchor.VerifyLegacyAnchor` | packages/ledger-client/src/legacy-anchor.ts:137-177 | The discrepancies in order; intact exactly when every sealed row is found unaltered and the sealed hashes have the sealed root; it throws exactly when a row is found that has no sealed hash |
| `LegacyAnchor.IndexById` | packages/ledger-client/src/legacy-anchor.ts:142 | The map finds the last row with an id |
| `LegacyAnchor.FindIsLast` | packages/ledger-client/src/legacy-anchor.ts:142 | And that is a row with that id behind which there is no other |
| `LegacyAnchor.EntryDiscrepancyIs` | packages/ledger-client/src/legacy-anchor.ts:144-159 | A sealed entry is missing when no row has its id, altered when the row found has another hash, and otherwise fine |
| `LegacyAnchor.NoDiscrepanciesIff` | packages/ledger-client/src/legacy-anchor.ts:144-159 | No entry is reported exactly when all sealed rows are unaltered |
| `LegacyAnchor.BuiltAnchorIs` | packages/ledger-client/src/legacy-anchor.ts:92-119 | A built anchor holds every row below version 2 or without canonical text, as often as it occurs, in the order of ids, each hash beside its id, the greatest of their versions, and the tree head over the hashes |
| `LegacyAnchor.FreshAnchorHoldsIff` | packages/ledger-client/src/legacy-anchor.ts:92-119 | A built anchor holds of later rows if and only if every row it sealed is found under its id with its hash: nothing else about the rows is protected |
| `LegacyAnchor.FreshAnchorIsIntact` | packages/ledger-client/src/legacy-anchor.ts:92-177 | An anchor just built over rows with distinct ids is intact over them |
| `LegacyAnchor.EditedAnchorFails` | packages/ledger-client/src/legacy-anchor.ts:161-170 | An anchor whose root is that of its sealed hashes, edited to any other hash list, is never intact against that root, whatever the rows, or the edit yields a collision |
| `LegacyAnchor.EditedBuiltAnchorFails` | packages/ledger-client/src/legacy-anchor.ts:92-170 | So it is for every anchor that was built over rows with hexadecimal hashes |
| `LegacyAnchor.LegacyIsPrefixMeans` | packages/ledger-client/src/legacy-anchor.ts:205-215 | `legacyIsPrefix` holds if and only if some id separates the legacy rows from all others |
| `Oracle.OracleStore.RecordAudit` | packages/oracle/src/index.ts:50-64 | The audit's three signals always land, and nothing else of any row changes |
| `Oracle.OracleStore.RecordScore` | packages/oracle/src/index.ts:83-101 | A score lands unless the stored one is newer; a value outside the column constraints throws and changes nothing |
| `Oracle.OracleStore.Evaluate` | packages/oracle/src/index.ts:110-165 | The blockers in order, the stored score and count, and an approval exactly when the gate holds, which is when nothing blocks |
| `Oracle.SignalBlockersMean` | packages/oracle/src/index.ts:110-165 | Each blocker of `Evaluate` stands for its own signal: no row, a failed check, or the count of rejected scopes |
| `Oracle.NumberBlockersMean` | packages/oracle/src/index.ts:110-165 | And for its own number: no score, one below 85.00, an unknown count of vulnerabilities, or a positive one |
| `Oracle.GateMeans` | packages/oracle/src/index.ts:110-165 | The gate in numbers: four signals, 85.00 or more, no critical vulnerability |
| `Oracle.GreatestStampWins` | packages/oracle/src/index.ts:83-101 | In any order, with audits between, the score kept is the last to arrive among those with the greatest `scoredAt` |
| `Oracle.LeadingIsGreatest` | packages/oracle/src/index.ts:83-101 | That score has a stamp at least as great as every valid score's |
| `Oracle.LastAuditWins` | packages/oracle/src/index.ts:50-64 | The audit signals kept are the last recorded, whatever scores follow |
| `Oracle.DeliveryOrderIsIrrelevant` | packages/oracle/src/index.ts:66-101 | Two deliveries of one set of scores with distinct stamps, in any order and with any repetition, end with the same score |
| `Oracle.RoundedGate` | packages/oracle/src/index.ts:150-157 | The column keeps two decimals, so the gate is passed by scores from 84.995 up |
| `Tables.Database.ClaimSettlement` | apps/settlement-worker/src/worker.ts:744-766 | Wins exactly on no row or a FAILED one; the new table is that of the claim statement |
| `Tables.Database.MarkSettlementFailed` | apps/settlement-worker/src/worker.ts:110-115 | Any status becomes FAILED |
| `Tables.Database.FindEscrowPayment` | packages/oracle/src/index.ts:182-199 | None exactly when no row of the contract is AUTHORIZED with a payment; otherwise one with the latest creation time, and its own terms |
| `Tables.Database.CommitSettlement` | apps/settlement-worker/src/worker.ts:775-828 | The four writes of the transaction if COMMIT takes effect, and none otherwise; that it is all or nothing is the database's promise, here a parameter |
| `Tables.Database.UpdateReleased` | apps/settlement-worker/src/worker.ts:790-793 | Exactly the rows with the payment become RELEASED, whatever their status |
| `Tables.Database.OnPaymentFailed` | apps/settlement-worker/src/worker.ts:291-299 | Only PENDING and AUTHORIZED rows with the payment become FAILED |
| `Tables.Database.OnPaymentAuthorized` | apps/settlement-worker/src/worker.ts:311-320 | Only a PENDING row of the order becomes AUTHORIZED with the payment, unless another order has it |
| `SettlementSafety.EscrowNeverMovesDown` | apps/settlement-worker/src/worker.ts:277-339 | Between any two points of any run no escrow row moves down PENDING < AUTHORIZED < FAILED < RELEASED or changes its terms, and no entry is lost |
| `SettlementSafety.WriteGrowsEscrow` | apps/settlement-worker/src/worker.ts:277-339 | The same for each single statement |
| `SettlementEvidence.ReleasedIffCompleted` | apps/settlement-worker/src/worker.ts:775-828 | In every interleaving of steps and crashes a row is RELEASED if and only if the ledger holds SETTLEMENT_COMPLETED for its payment |
| `SettlementEvidence.EntriesArePreceded` | apps/settlement-worker/src/worker.ts:1071-1182 | Each entry comes after an approved verdict, an AUTHORIZED look-up and a capture of that row's own amount and currency |
| `SettlementEvidence.NotesAreTrue` | packages/oracle/src/index.ts:110-199 | A verdict is noted only when the gate holds of what was read, a look-up only of an AUTHORIZED row with the latest creation time |
| `SettlementEvidence.ConfirmedCapture` | apps/settlement-worker/src/worker.ts:1231-1242 | A capture confirmed afterwards by a recovery was a capture of the very row it looked up |
| `SettlementEvidence.ReleasedOnlyBySettling` | apps/settlement-worker/src/worker.ts:790-793 | A row becomes RELEASED only in the transaction that writes its entry |
| `SettlementOnce.ClaimsAreBounded` | apps/settlement-worker/src/worker.ts:744-766 | In any interleaving the winning claims of a contract never exceed one plus its FAILED writes |
| `SettlementOnce.LookUpsAreClaimed` | apps/settlement-worker/src/worker.ts:1090-1131 | In every run live attempts on a contract go on to a look-up at most as often as they won its claim |
| `SettlementOnce.DeliveriesCountEntries` | apps/settlement-worker/src/worker.ts:810-818 | In every run a profile's deliveries are the SETTLEMENT_COMPLETED entries that name its freelancer |
| `SettlementOnce.ReleasedAtMostOnce` | apps/settlement-worker/src/worker.ts:1202-1302 | If attempts on one contract never hold a looked-up payment at the same time, no payment is released twice, whatever is redelivered, retaken or crashes |
| `SettlementOnce.CommitRepeatsIff` | apps/settlement-worker/src/worker.ts:790-793 | A commit repeats a release if and only if its row is already RELEASED when it runs |
| `SettlementOnce.ReleasedOnceIff` | apps/settlement-worker/src/worker.ts:775-828 | In every run from empty tables, however attempts overlap, no payment is released twice if and only if no commit takes effect whose row is already RELEASED |
| `SettlementEntries.EntriesStateTheirAmount` | apps/settlement-worker/src/worker.ts:1128-1145 | In every run each entry goes back to the request or recovery that began its attempt, releases a row of that contract, and states the amount and freelancer the request named, or else the row's own amount, and the row's currency |
| `SettlementRuns.UndisturbedRequestSettles` | apps/settlement-worker/src/worker.ts:1071-1161 | From any ready contract an undisturbed request ends COMPLETED, with the row released and one entry more that names contract, freelancer, payment, the amount asked for or else held, and currency |
| `SettlementRuns.RecoverySettles` | apps/settlement-worker/src/worker.ts:1202-1280 | A settlement abandoned after its capture is settled by an undisturbed recovery, though the provider refuses to capture again, for the row's amount and the freelancer on file |
| `SettlementRuns.SweepsTakeUp` | apps/settlement-worker/src/worker.ts:987-996 | The recovery takes up exactly PROCESSING settlements, the payout sweep exactly COMPLETED ones with an open payout and an account |
| `SettlementRuns.OutsideWritesAreRead` | packages/oracle/src/index.ts:50-101 | What score events, audits, scope checks and onboarding write is what the worker reads, for that contract and no other |
| `SettlementRuns.OfferIsReachable` | apps/settlement-worker/src/worker.ts:277-339 | From nothing: an account, a passing audit and score, and a funded order make a ready contract |
| `SettlementRuns.SweepOverlapsRequest` | apps/settlement-worker/src/worker.ts:1370-1378 | `start` subscribes before it sweeps: from any ready contract a request and its recovery can both release the payment |
| `SettlementRuns.DoubleFailedWriteOverlaps` | apps/settlement-worker/src/worker.ts:821-824 | One failing request writes FAILED twice: two later requests can both claim and both release the payment |
| `SettlementRuns.LatePublishFailureHidesPayout` | apps/settlement-worker/src/worker.ts:1157-1180 | From any ready contract, a publish that fails after the commit leaves the settlement FAILED though released and on the ledger, with no payout due to anybody and nobody holding a payment of it |
| `SettlementRuns.RequestsCanReleaseTwice` | apps/settlement-worker/src/worker.ts:821-824 | So at-most-once fails without a condition: from empty tables live requests alone can release one payment twice |
| `SettlementRuns.SweepCanReleaseTwice` | apps/settlement-worker/src/worker.ts:1370-1378 | And so can one request and one recovery |
| `PayoutSweeps.DueAgainIff` | apps/settlement-worker/src/worker.ts:987-996 | In every run from a settlement that is not COMPLETED, a payout is due if and only if another settlement of the contract has landed with no FAILED write since, its payout is open and the freelancer has an account |
| `PayoutSweeps.HiddenWhileUnheld` | apps/settlement-worker/src/worker.ts:1157-1180 | While no row of such a contract is held, by escrow or by an attempt, no payout sweep selects it |
| `PayoutSweeps.TriesAreBounded` | apps/settlement-worker/src/worker.ts:894-1031 | In every run with never more than m payout legs of one contract at once, from commit or sweep query to the count, its payout is tried at most 5 + (m - 1) times and once more per settlement of it that landed, whatever crashes and whatever the webhook reopens |
| `PayoutPort.KeyFixesContract` | apps/settlement-worker/src/worker.ts:939-943 | Idempotency keys of different contracts differ |
| `PayoutPort.FakePayoutAdapter.InitiatePayout` | packages/razorpay-adapter/src/index.ts:851-878 | A repeated key issues nothing and answers with the payout first made under it; a new key issues one more |
| `PayoutRuns.LegPays` | apps/settlement-worker/src/worker.ts:894-968 | An undisturbed payout leg in full: with an account and a positive amount it issues the row's terms unless the contract has a payout, counts one try and leaves the provider's status, or FAILED; otherwise it changes nothing |
| `PayoutRuns.LegIssuesIff` | apps/settlement-worker/src/worker.ts:927-947 | It issues something if and only if there is an account, the amount is positive and the contract has no payout |
| `PayoutRuns.UndisturbedRequestPays` | apps/settlement-worker/src/worker.ts:1071-1161 | From any ready contract an undisturbed request is paid out to its end |
| `PayoutRuns.FromNothingToPayout` | apps/settlement-worker/src/worker.ts:1071-1161 | From nothing, some run funds, releases and pays out an order of 500 |
| `PayoutRuns.SweepPays` | apps/settlement-worker/src/worker.ts:987-1031 | At any point of any run, an undisturbed sweep pays a contract that is due, below the cap of five, the amount of its released row |
| `PayoutRuns.SweepGivesUp` | apps/settlement-worker/src/worker.ts:1004-1027 | From the cap on it marks it FAILED_TERMINAL, and nothing is due to anybody |
| `PayoutSafety.PayoutsAreBacked` | apps/settlement-worker/src/worker.ts:894-968 | In every run at most one payout per contract, of exactly the terms of a RELEASED row of that contract whose entry is on the ledger |
| `PayoutSafety.ReleasedIsPaidOrUnpaid` | apps/settlement-worker/src/worker.ts:894-1031 | Conservation: in every run and currency the total released is the total paid out and the released rows no payout was made for |
| `PayoutSafety.PaidAtMostReleased` | apps/settlement-worker/src/worker.ts:894-1031 | So in every run and currency the total paid out never exceeds the total released |
| `PayoutSafety.NoSecondPayout` | apps/settlement-worker/src/worker.ts:939-943 | Once a contract has a payout, no step of any run adds another for it |
| `PayoutSafety.SecondReleaseIsNeverPaid` | apps/settlement-worker/src/worker.ts:939-943 | So any other row of that contract is never paid out, whenever it is released |
| `PayoutSafety.TransferOnlyBySettling` | apps/settlement-worker/src/worker.ts:794-799 | Only the settlement transaction writes a transfer id |
| `RedisStreams.NothingIsLost` | packages/event-bus/src/index.ts:211-453 | In every run, consumers crashing anywhere, each entry appended since the group was made is exactly one of undelivered, pending and acknowledged, and an acknowledged one had no envelope, was handled, or failed three times and is a dead letter |
| `RedisStreams.UntimedStays` | packages/event-bus/src/index.ts:61-63 | An entry whose envelope is not JSON, is null or has no valid timestamp throws before any attempt, is never acknowledged, never a dead letter, and stays pending |
| `RedisStreams.CanBeAckedIff` | packages/event-bus/src/index.ts:244-339 | At any point of any run a pending entry can still be acknowledged if and only if it is not such an entry |
| `RedisStreams.UntimedIsReachable` | packages/event-bus/src/index.ts:259-262 | Any group comes to have such an entry pending once it is appended and read |
| `RedisStreams.UntimedDropsRest` | packages/event-bus/src/index.ts:368-375 | Wherever it stands in a batch, reclaimed or freshly read, the consumer works on nothing at or behind it until it reads or reclaims again |
| `RedisStreams.UntimedDropsBatch` | packages/event-bus/src/index.ts:368-375 | At the head of a reclaimed batch it makes the pass change nothing at all |
| `RedisStreams.RedisStreamsBus.ProcessEntry` | packages/event-bus/src/index.ts:244-339 | The whole effect on the group of one entry, and whether it throws, for every pattern of handler failures |
| `RedisStreams.TriesAreARun` | packages/event-bus/src/index.ts:279-295 | The retry loop is a stretch of the step system: failures up to the first success or the limit |
| `RedisStreams.ProcessEntryIsARun` | packages/event-bus/src/index.ts:244-339 | What processing an entry does is what the steps of an undisturbed consumer add up to |
| `Retries.RunWithRetries` | packages/event-bus/src/index.ts:582-607 | The loop succeeds exactly when one of three attempts does, and stops at the first |
| `KafkaPartition.CommittedIsSettled` | packages/event-bus/src/index.ts:661-761 | In every run, whatever is behind the committed offset, from where the group last started without one, was null, handled, parked as unparseable, or parked after three failures |
| `KafkaPartition.AssignedAt` | packages/event-bus/src/index.ts:676-689 | A consumer resumes at the committed offset, and without one at the end of the log |
| `KafkaPartition.EverythingSinceTheStartIsSettled` | packages/event-bus/src/index.ts:676-689 | The same from the group's first start, for runs in which it never starts again at the end of the log before a first commit |
| `KafkaPartition.OriginIsFirst` | packages/event-bus/src/index.ts:676-689 | Such runs are exactly those in which the two starting points stay one |
| `KafkaPartition.SkippedIsLost` | packages/event-bus/src/index.ts:676-689 | Otherwise it fails: a consumer that dies before its first commit can leave a message behind for good |
| `KafkaPartition.UntimedBlocks` | packages/event-bus/src/index.ts:713-730 | A value that parses, but to null or without a valid timestamp, is never passed by the committed offset |
| `KafkaPartition.CanPassIff` | packages/event-bus/src/index.ts:703-760 | At any point of any run, with a consumer about to fetch, the committed offset can pass a message, unless the group starts anew behind it, if and only if there is no such value from the consumer's position up to that message |
| `KafkaPartition.UntimedIsReachable` | packages/event-bus/src/index.ts:713-730 | Any partition comes to have such a value next for a consumer |
| `KafkaPartition.DeliveredIsARun` | packages/event-bus/src/index.ts:703-760 | What one delivery does is what the steps of an undisturbed consumer add up to, for every pattern of failures |
| `KafkaPartition.ResolvedIsSettled` | packages/event-bus/src/index.ts:703-760 | A message resolves only when it is settled, and delivery alone moves no offset |
| `KafkaPartition.EachMessage` | packages/event-bus/src/index.ts:703-760 | The whole effect of one delivery and whether it resolves, for every pattern of failures |
| `OutboxRelay.PublishBatch` | packages/event-bus/src/outbox-relay.ts:89-110 | A refused row is left, the others go on; a failed update ends the batch |
| `OutboxRelay.Relay.Pump` | packages/event-bus/src/outbox-relay.ts:58-124 | The queue, the sent rows and what the bus has got after a pass, committed or lost, and the count it reports |
| `OutboxRelay.TakenAndKept` | packages/event-bus/src/outbox-relay.ts:89-110 | Of a batch the accepted rows are taken and the refused ones kept, each as often as it occurs |
| `OutboxRelay.UndisturbedPassSends` | packages/event-bus/src/outbox-relay.ts:58-124 | A pass left undisturbed publishes the rows it selected, and once committed it has sent exactly them |
| `OutboxRelay.SentWasPublished` | packages/event-bus/src/outbox-relay.ts:58-124 | With relays side by side, in every run, rollbacks and crashes included, a row marked sent was published |
| `OutboxRelay.BacklogDrains` | packages/event-bus/src/outbox-relay.ts:71-78 | With P failing rows, P below the batch size, a backlog of H publishable rows is gone after ceil(H / (batchSize - P)) committed passes |
| `OutboxRelay.BacklogDrainsUnderLoad` | packages/event-bus/src/outbox-relay.ts:71-78 | The same with any rows arriving behind it before every pass |
| `OutboxRelay.OlderRowsFirst` | packages/event-bus/src/outbox-relay.ts:74 | Older rows drain as if nothing had arrived behind them |
| `OutboxRelay.FullOfFailuresBlocks` | packages/event-bus/src/outbox-relay.ts:71-78 | A pass changes nothing if and only if the whole batch fails: then all behind it waits for ever |
| `RepoName.NameReads` | apps/settlement-worker/src/worker.ts:514-515 | A name is the base, a hyphen and the number in decimal, of two digits at least |
| `RepoName.NameInjective` | apps/settlement-worker/src/worker.ts:514-515 | Different numbers give different repository names |
| `RepoName.InsertProvisioningRow` | apps/settlement-worker/src/worker.ts:499-544 | No-op exactly when the contract has a row; otherwise the first free of five numbers is taken, and it fails exactly when all five are taken |
| `RepoName.GaplessInsertsAtOnce` | apps/settlement-worker/src/worker.ts:510-515 | With numbers in use without a gap the first try is free |
| `Provisioning.CompleteMeansInPlace` | apps/settlement-worker/src/worker.ts:555-684 | In every run of attempts one after another, with crashes anywhere, COMPLETE means repository, collaborator and hook are in place, there is never a second repository or hook, and an ACTIVE contract is a COMPLETE one |
| `ProvisioningOverlap.InPlaceUnderOverlap` | apps/settlement-worker/src/worker.ts:546-684 | However attempts overlap and wherever they die, there is never a second repository or hook, and COMPLETE as well as ACTIVE mean that all three are in place |
| `ProvisioningOverlap.ActiveImpliesCompleteIff` | apps/settlement-worker/src/worker.ts:583-684 | However attempts overlap: ACTIVE implies COMPLETE if and only if no ACTIVE write has taken effect, or no other status has been written since the last COMPLETE |
| `ProvisioningOverlap.GuardedActiveImpliesComplete` | apps/settlement-worker/src/worker.ts:583-684 | A guard that no other status is written over COMPLETE would be enough for it, overlaps and crashes included |
| `ProvisioningOverlap.CanBeTurnedBack` | apps/settlement-worker/src/worker.ts:546-554 | From nothing, two attempts can overlap so that the contract is ACTIVE, the row says REPO_CREATED and nobody is left at work |
| `ProvisioningOverlap.TurnedBackForEver` | apps/settlement-worker/src/worker.ts:634-643 | From there COMPLETE is never written again: later attempts find the hook attached and stop short of it |
| `Provisioning.LoginsMatter` | apps/settlement-worker/src/worker.ts:397-412 | A row inserted without a GitHub login is FAILED at once; a login GitHub does not know ends the attempt and leaves the row |
| `Provisioning.NameIsFixed` | apps/settlement-worker/src/worker.ts:486-493 | No step of any run changes the repository name |
| `Provisioning.CallKeepsOk` | apps/settlement-worker/src/github-provisioner-client.ts:50-158 | Each GitHub call, creating or reconciling, with its answer lost or not, keeps the row truthful about the outside |
| `Provisioning.SixSweepsAreEnough` | apps/settlement-worker/src/worker.ts:694-724 | After six sweeps whose first write took effect no sweep selects the row |
| `Provisioning.SweepsAreBounded` | apps/settlement-worker/src/worker.ts:694-724 | From any point, effective sweeps number at most the attempts left under the cap and one to give up |
| `Provisioning.ResumedAttemptCompletes` | apps/settlement-worker/src/worker.ts:555-684 | Wherever the last attempt died, the next sweep, left alone, completes the row and activates the contract |
| `Provisioning.StuckForEver` | apps/settlement-worker/src/worker.ts:583 | A COMPLETE row whose contract is not ACTIVE stays so in every run: no sweep or event resumes it |
| `Provisioning.StuckIff` | apps/settlement-worker/src/worker.ts:636-684 | A step leads to such a row exactly when ACTIVE is to be written and it is a crash or a write without effect, or when it is the COMPLETE write and lands but reports an error; and no step leads out |
| `Provisioning.StuckIffStranded` | apps/settlement-worker/src/worker.ts:555-684 | Over runs from nothing: the row ends up so if and only if one of these three steps was taken |
| `Provisioning.CanBeStranded` | apps/settlement-worker/src/worker.ts:636-684 | From nothing, for any name, some run takes each of the three |
| `StatementSplitter.Advance` | tools/seed-neo4j.ts:60-85 | One turn of the loop finds what the recursive definition says comes next |
| `StatementSplitter.SplitStatements` | tools/seed-neo4j.ts:55-89 | The loop computes the recursive definition of the split |
| `StatementSplitter.SplitsForInstance` | tools/seed-neo4j.ts:55-89 | One text with a quoted semicolon and a comment, spelled out |
| `StatementSplitter.SplitUndoesJoin` | tools/seed-neo4j.ts:55-89 | Joining trimmed, non-empty, quote-balanced statements without unquoted semicolons or comments by a semicolon and a line feed, and splitting, gives them back |
| `StatementSplitter.CommentLineIsLineFeed` | tools/seed-neo4j.ts:63-70 | Outside a string and not just after a slash, or inside a comment, inserting a comment line is the same as inserting a line feed |
| `StatementSplitter.AfterASlashItDiffers` | tools/seed-neo4j.ts:63-70 | Just after any slash outside strings and comments it is not: the statements have lost exactly that slash |
| `StatementSplitter.TogglesAgreeIff` | tools/seed-neo4j.ts:71-75 | A position reads as it does when backslashes are counted, in every state, if and only if it is not a quote behind an even, non-zero run of backslashes |
| `StatementSplitter.SplitsAgree` | tools/seed-neo4j.ts:55-89 | A text without such a quote splits as it does when backslashes are counted |
| `StatementSplitter.EscapedBackslashMerges` | tools/seed-neo4j.ts:71-75 | With one it need not: a string that ends in an escaped backslash swallows the next statement |
| `ThresholdSweep.Sweep` | tools/calibrate_scope_threshold.py:143-158 | None exactly with fewer than two distinct scores; otherwise a midpoint with its own cost and margin, no midpoint cheaper, and none as cheap with a larger margin |
| `ThresholdSweep.SweepIsOptimalBetween` | tools/calibrate_scope_threshold.py:143-158 | Though only midpoints are tried, no threshold above the lowest and up to the highest score is cheaper |
| `ThresholdSweep.OptimalEverywhereIff` | tools/calibrate_scope_threshold.py:143-158 | Over all thresholds it is optimal if and only if some midpoint costs no more than the number of out-of-scope samples and no more than three times the number of in-scope ones |
| `ThresholdSweep.SweepCanMissTheBest` | tools/calibrate_scope_threshold.py:143-158 | On one in-scope sample at 0.1 and one out-of-scope at 0.9 it is not: the sweep costs 4, accepting everything costs 1 |
| `ThresholdSweep.MarginIsHalfGap` | tools/calibrate_scope_threshold.py:155 | The margin of a midpoint is half the gap it stands in |
| `ThresholdSweep.SameCutSameCost` | tools/calibrate_scope_threshold.py:75-91 | Thresholds that cut the scores at the same place have the same false negatives and positives |
| `Complexity.DecisionsAreConserved` | apps/ci-worker/src/ast-analyzer.ts:108-126 | Every decision of a tree is counted once, outside all functions or in its nearest enclosing one |
| `Complexity.WhatCounts` | apps/ci-worker/src/ast-analyzer.ts:108-126 | Exactly branches, loops, catches, cases with a test and the three short-circuit operators add a path, one each; and what is a function |
| `Complexity.WalkAdds` | apps/ci-worker/src/ast-analyzer.ts:419-443 | The first walk counts every decision and charges each to its nearest enclosing function, never to the node's own |
| `Complexity.Analyzer.GetFunctionParent` | apps/ci-worker/src/ast-analyzer.ts:437 | The nearest function among the ancestors |
| `Complexity.Analyzer.Fill` | apps/ci-worker/src/ast-analyzer.ts:447-455 | The second walk fills the entries in the order the first one pushed them |
| `Complexity.AnalyzeAst` | apps/ci-worker/src/ast-analyzer.ts:415-458 | Module complexity is all decisions plus one; entry k is one plus the decisions of the k-th function entered |
| `Complexity.ReportIsConserved` | apps/ci-worker/src/ast-analyzer.ts:457-461 | Module complexity less one is the decisions outside all functions plus each function's complexity less one, and bounds each of them |

## Left out

- SHA-256, HMAC and ML-DSA internals: functions with the lengths the code checks, and a signature that is only stored.
- Printing of floating-point numbers: a finite number is identified with the text Number::toString gives it, and only that text's alphabet is used; ledger ids are taken below 2^53.
- The text of errors and log lines, metrics, tracing and notifications; of a refused payload only the kind of refusal is kept.
- The way jsonb stores a payload, beyond sorting members and dropping the sign of zero, and its rejection of the NUL character.
- `appendWithOutbox` with its fallback, and `created_at` of ledger rows.
- A leaf index that is not an integer, and roots of contracts that do not exist.
- The handlers themselves are modelled as step functions on values rather than as methods: a method cannot be interrupted, and the properties are about interleavings. The statements they issue are methods of `Tables.Database`.
- Settlement ledger payloads keep contract, freelancer, payment, amount and currency; the Merkle sealing after a settlement is not a step, since it changes nothing the protocol reads.
- Captures made outside the capture port are not part of the payment provider's state, and escrow amounts are not negative.
- Rows of escrow that other tools set to CAPTURED or REFUNDED: no code path of the gateway or the worker writes those two.
- SettlementOnce.ReleasedAtMostOnce: assumes that attempts on one contract do not overlap between look-up and commit, because without it the property is false.
- ThresholdSweep.SweepIsOptimalBetween: over exact reals; the rounding of midpoints and costs is not modelled.
- LedgerStore.LedgerClient.UpsertRoot: rows become visible in the order of their ids; a row that commits late with a smaller id than one already read is not modelled, and a root read before it covers no prefix.
- OutboxRelay.BacklogDrains: rows that arrive later are younger than the backlog; a long transaction whose row appears late with an earlier creation time is not modelled.
- Provisioning.CompleteMeansInPlace: attempts on one contract do not overlap here; `ProvisioningOverlap` lets them. People who remove repositories, collaborators or hooks by hand are not part of the outside world.
- Stream trimming, idle times and back-off: which pending entries a reclaim returns is arbitrary.
- Kafka rebalancing beyond consumers that start, die and commit their own position.
- InMemoryBus, the audit signal thresholds, the score and payout webhooks' parsing, and the scoring sweep, which has the shape of the provisioning sweep without its states.
- A sweep over several rows is one step per row, taken when its query read the row.
- SparseArrays.SparseIsReadableIff: holes in the array itself; an array with holes below another value is not part of `Value`.
- Parsing of JavaScript, the Halstead tables and the maintainability index.
