# Cardano infrastructure: verified model

A Dafny 4.11 model of the three parts of the repository that carry real algorithms, with proofs of what they promise.

1. **Bech32 and addresses** (`Bech32Checksum`, `Bech32Register`, `BitStream`, `Bech32`, `Bech32Loops`,
   `Bech32Vectors`, `Varint`, `Address`). The checksum is a linear register machine over 30-bit words, the regrouping of bits is arithmetic on
   bit streams. From linearity and injectivity follow the uniqueness of the checksum, both round trips and the
   detection of bursts at any length; the generators are pinned by their law in GF(32) and by known answers (BIP 173, sections "Bech32", "Checksum" and "Checksum design"; CIP-19, header
   types and section "Pointers").
2. **Block indexer** (`CircularQueues`, `Keys`, `IndexerData`, `Stores`, `Indexing`, `BlockIndexers`, `UtxoReplay`,
   `FilteredIndex`, `Queries`, `SoftDelete`, `ChainRuns`, `ChainIndex`, `SoftRuns`, `Runner`, `RunnerSteps`,
   `RunnerProofs`, `RunnerItems`). Ring buffer, transaction writer and indexer are classes; each call is proved to be a step of the
   transition functions in `Indexing`, and the theorems are about all runs of those steps, including failures, crashes
   between commit and memory update, and restarts. The runner is a transition system whose steps interleave producers,
   main loops, `Reset`, `Close` and the reader of the error channel.
3. **Coin selection and balancing** (`Amounts`, `WalletData`, `CoinSelection`, `Selectors`, `SelectionLimits`,
   `MissedChoices`, `AppendSelector`, `TokenLists`, `TxBuilders`, `TxSending`, `Bridging`). The two greedy selectors,
   one in place on the UTXO slice and one on a copy, are proved optimal for a single token and equal to each other,
   and the in-place one is proved complete exactly for the shapes of input where it is; above them the fee and change
   arithmetic wraps at 64 bits as in Go, and the balance is proved modulo 2^64 always and exactly when it is exact.

Loops and methods that change fields are methods with invariants; each is proved against a function or predicate, and
the theorems are lemmas about those. Sums are `map`s that read a missing key as zero. Amounts are naturals below 2^64
with explicit wrap-around. I/O, clocks and the command line tool are parameters: an environment record for the
indexer, `Answers` and `Tools` for the transaction sender, `Library` for Byron addresses.

Where the code does not meet a property, the model keeps the code, gives an input and proves the exact condition:
batch and replay differ exactly when an output is created at or after its last spending (`UtxoReplay.BatchIsReplay`,
`UtxoReplay.SpentTooEarly`); the filtered index is right after every block exactly when no block spends its own output
of interest (`FilteredIndex.FilteredExactly`, `FilteredIndex.UntraceableBlock`); the stored blocks form a chain
exactly when `ConfirmationBlockCount` is at least 1 or no slot follows the starting point
(`ChainRuns.ConfirmationsNeeded`, `ChainRuns.ZeroConfirmationsBreaks`); pointers are written back exactly if minimal
(`Varint.EncodeOfRead`, `Address.PaddedAddress`); lovelace balances exactly if the inputs cover outputs and fee, which
amounts beyond 64 bits can break (`TxSending.ValueBalance`, `TxSending.OverflowUnbalances`); where no total overflows,
a possible choice of inputs is found except when a limit of two or more and more UTXOs than the limit come together
with two or more conditions or with a condition on a token that some UTXO lists twice, and each such limit and number
has inputs of both kinds where it is missed (`SelectionLimits.ChoiceIsFound`, `MissedChoices.ChoiceIsMissed`,
`MissedChoices.TwiceIsMissed`), and so have totals that overflow (`MissedChoices.OverflowIsMissed`); a fee that takes
all the change drops the remaining tokens (`TxSending.ZeroChangeDropsTokens`), which cannot happen when amounts fit,
the fee is within the potential fee and the minimum is positive (`TxSending.ChangeIsKept`); the change lists amounts
of zero exactly for tokens that were given up with a UTXO (`TxSending.ZeroIsListed`, `TxSending.GivenUpIsListed`); a
failed generic transaction takes the lovelace of a receiver exactly when it is the first with a token name that does
not parse, or its minimum is not answered (`Bridging.LoweredExactly`, `Bridging.UnreadableTokenLowers`). Where
comments and code differ the code is followed: the comment at `wallet/address_types.go:258-260` gives reward addresses
the header of enterprise addresses, while the code writes `0b1110`.

The preconditions of the code that the theorems state openly: `ConfirmationBlockCount >= 1` and a `Reset` before
rolling (`ChainRuns`), strictly increasing slots along linked headers, no output spent twice (`SoftRuns`), `maxInputs
>= 1`, token names listed at most once and totals within 64 bits (`CoinSelection.Plain`, `TxSending.Fits`) where exact
amounts are claimed.

Run `dafny verify dfyconfig.toml` to verify the whole project.

## Model

| member | source | states |
|---|---|---|
| `Bech32Checksum.StepLinear` | wallet/bech32/bech32.go:52-63 | One round of the checksum register is linear over xor, for all registers and symbols. |
| `Bech32Checksum.ZeroStepInjective` | wallet/bech32/bech32.go:68-77 | A round with symbol zero never turns a non-zero register into zero: the low five bits of the five generators are independent. |
| `Bech32Checksum.FoldLinear` | wallet/bech32/bech32.go:93-103 | Linearity carried through symbol sequences of any equal length. |
| `Bech32Checksum.FoldZeros` | wallet/bech32/bech32.go:105-117 | Any run of zero symbols keeps zero and non-zero registers apart. |
| `Bech32Checksum.PackInjective` | wallet/bech32/bech32.go:118-128 | Up to six symbols fed to an empty register can all be read back from it. |
| `Bech32Checksum.BurstDetected` | wallet/bech32/bech32.go:48-128 | Two symbol runs of any length that differ only inside six consecutive places and leave the same register are equal. |
| `Bech32Checksum.ChecksumIsAdded` | wallet/bech32/bech32.go:105-128 | Six checksum symbols are xor-ed onto the register that six zeros leave. |
| `Bech32Checksum.ChecksumUnique` | wallet/bech32/bech32.go:139-164 | The verifier accepts a six-symbol checksum if and only if it is the one the writer produces. |
| `Bech32Register.ComputePolymod` | wallet/bech32/bech32.go:48-128 | The five loops, with and without a given checksum, compute the register function the theorems are about. |
| `Bech32Vectors.GeneratorDoubles` | wallet/bech32/bech32.go:21-22 | Every five-bit digit of a generator is the same digit of the one before doubled in GF(32) with the modulus of BIP 173, which with the first one fixes the whole table. |
| `Bech32Vectors.ShortRegister` | wallet/bech32/bech32.go:48-128 | The register of "a12uel5l" ends at 1. |
| `Bech32Vectors.EncodesShort` | wallet/bech32/bech32_test.go:101-130 | The empty data under "a" is encoded as "a12uel5l". |
| `Bech32Vectors.DecodesShort` | wallet/bech32/bech32_test.go:24-40 | "a12uel5l" and "A12UEL5L" decode to "a" and no data. |
| `Bech32Vectors.EncodesLong` | wallet/bech32/bech32_test.go:101-130 | The symbols 0 to 31 under "abcdef" are encoded as the vector of BIP 173 that spells the whole charset. |
| `Bech32Vectors.ConvertsKnown` | wallet/bech32/bech32.go:297-368 | A concrete regrouping of bytes into five-bit groups. |
| `BitStream.GroupsOfStream` | wallet/bech32/bech32.go:317-352 | Cutting a written-out bit stream (with an incomplete tail) into groups gives the groups and the tail back. |
| `BitStream.StreamOfGroups` | wallet/bech32/bech32.go:317-352 | The groups of a stream followed by its leftover are the whole stream, and every group fits its width. |
| `BitStream.ConvertBits` | wallet/bech32/bech32.go:297-368 | For every pair of widths 1 to 8: output bits are the input bits, zero-padded with `pad` and cut before the leftover without; it fails exactly for other widths, or without padding when the leftover is longer than four bits or not zero. |
| `BitStream.EightFiveEight` | wallet/bech32/bech32.go:297-368 | 8 to 5 with padding and then 5 to 8 without is the identity on every byte sequence. |
| `BitStream.FiveEightFive` | wallet/bech32/bech32.go:297-368 | Whatever 5 to 8 without padding accepts is reproduced by 8 to 5 with padding. |
| `Bech32.ScanMeaning` | wallet/bech32/bech32.go:184-197 | The character scan passes exactly the printable strings of one case, and its flags tell which case occurs. |
| `Bech32.ScanVerdict` | wallet/bech32/bech32.go:174-202 | In ranges of characters: what the scan lets through, what lower case is, and that the complaints about length and characters come before all others. |
| `Bech32.ScanBlames` | wallet/bech32/bech32.go:184-197 | The error of the scan names the first character that is not printable ASCII, or the printable characters up to some place have both cases. |
| `Bech32.SeparatorBlamed` | wallet/bech32/bech32.go:205-211 | After the scan, the separator error with an index is reported exactly when the last separator is there (or missing, at -1) and is in front or among the last six characters. |
| `Bech32.CharBlamed` | wallet/bech32/bech32.go:213-222 | The charset error names the first character behind the separator that is outside the charset. |
| `Bech32.ByteBlamed` | wallet/bech32/bech32.go:269-293 | The encoder's error names the first byte that is no five-bit value. |
| `Bech32.DecodedShape` | wallet/bech32/bech32.go:174-249 | A decoded string is, in lower case, the human-readable part, the separator, the data and the one checksum of both. |
| `Bech32.EncodeOfDecoded` | wallet/bech32/bech32.go:174-293 | Re-encoding what `DecodeNoLimit` returned gives the lower case of the string, at any length. |
| `Bech32.DecodeOfEncoded` | wallet/bech32/bech32.go:174-293 | For every non-empty printable human-readable part (also with `1` in it) and all five-bit data, decoding the encoding returns the lower-cased part and the data, with no length bound. |
| `Bech32.RoundTripBase256` | wallet/bech32/bech32.go:375-399 | `DecodeToBase256(EncodeFromBase256(hrp, data))` returns the lower-cased part and the data whenever the string has at most 256 characters, and an error whenever it is longer. |
| `Bech32.CanonicalBase256` | wallet/bech32/bech32.go:375-399 | Whenever `DecodeToBase256` succeeds, `EncodeFromBase256` of its result is the lower case of the string. |
| `Bech32.BurstsAreDetected` | wallet/bech32/bech32.go:158-249 | Two strings of equal length that differ, up to case, and only inside six consecutive positions are never both accepted with the same human-readable part, at any length. |
| `Bech32.SubstitutionIsDetected` | wallet/bech32/bech32.go:158-249 | Two strings that differ in one character by more than case are never both accepted with the same human-readable part. |
| `Bech32.ExpectedChecksumRepairs` | wallet/bech32/bech32.go:225-246 | The checksum named in the checksum error makes the string decodable when written over the actual one. |
| `Bech32Loops.ToBytes` | wallet/bech32/bech32.go:26-40 | The loop returns all charset indices or the first character outside the charset. |
| `Bech32Loops.WriteBech32Checksum` | wallet/bech32/bech32.go:139-149 | The loop appends the six characters of the unique accepted checksum. |
| `Bech32Loops.Bech32VerifyChecksum` | wallet/bech32/bech32.go:158-164 | Accepts exactly when the register over part, data and checksum ends at 1. |
| `Bech32Loops.DecodeNoLimit` | wallet/bech32/bech32.go:174-249 | The imperative decoder computes the decoding function of the round-trip theorems, with each of its errors. |
| `Bech32Loops.Encode` | wallet/bech32/bech32.go:269-293 | The imperative encoder computes the encoding function, or names the first byte that is no five-bit value. |
| `Bech32Loops.DecodeToBase256` | wallet/bech32/bech32.go:387-399 | Length limit, decoding and regrouping composed, errors in this order. |
| `Bech32Loops.EncodeFromBase256` | wallet/bech32/bech32.go:375-382 | Regrouping and encoding composed. |
| `Varint.ReadOfEncoded` | wallet/address_types.go:142-183 | Every 64-bit value, followed by any bytes, is read back exactly and with its length. |
| `Varint.EncodeOfRead` | wallet/address_types.go:142-183 | What was read is written back as it stood if and only if it had no padding group in front and no bit was shifted out. |
| `Varint.PaddedZero` | wallet/address_types.go:142-183 | A zero behind a padding group is read as zero and written back without it. |
| `Varint.KnownNumber` | wallet/address_types.go:142-158 | 2498243 is written as the four bytes of CIP-19's pointer example. |
| `Varint.VariableEncode` | wallet/address_types.go:142-158 | The dividing loop and the in-place reversal compute the most-significant-first encoding. |
| `Varint.ReadOne` | wallet/address_types.go:172-183 | The accumulating loop computes the reader function: value and number of bytes, or nothing without a final byte. |
| `Address.HeaderFields` | wallet/address.go:25-40 | Type, network and script bits written into a header are read back, for all Shelley types and networks below 16; the upper four bits are the type numbers of CIP-19. |
| `Address.OtherHeaders` | wallet/address.go:25-40 | Type 8 is Byron's and 9 to 13 are nobody's. |
| `Address.ShelleyHeaders` | wallet/address.go:25-40 | The ranges of header bytes that belong to each Shelley type, and where network and script bits are. |
| `Address.AcceptedBytes` | wallet/address.go:50-68 | Which bytes are an address, told from the first byte and the length: 57 bytes or more, 29 bytes, 32 bytes or more with a readable pointer, or what the Byron library accepts; never types 9 to 13. |
| `Address.InfoFields` | wallet/address_types.go:72-295 | Network, payment part, stake part, pointer and script flags are at the stated places of the bytes. |
| `Address.HeaderRebuilt` | wallet/address_types.go:72-98 | Every Shelley header byte is rebuilt from the fields read from it. |
| `Address.ReadOfWritten` | wallet/address_types.go:141-209 | Every triple of 64-bit numbers survives writing and reading a stake pointer. |
| `Address.WrittenOfRead` | wallet/address_types.go:171-209 | A stake pointer is written back as it stood exactly when its three numbers are minimally encoded. |
| `Address.InfoRoundTrip` | wallet/address_types.go:72-303 | Info, bytes, info is the identity for all four Shelley types (network below 16, extra bytes only for base addresses). |
| `Address.BytesRoundTrip` | wallet/address_types.go:58-303 | Bytes, info, bytes is the identity for valid base, enterprise and reward addresses, and for pointer addresses exactly when minimally encoded. |
| `Address.PaddedAddress` | wallet/address_types.go:102-209 | A valid pointer address with a padded number that is not written back as it stood. |
| `Address.TextRoundTrip` | wallet/address.go:70-114 | For networks 0 and 1 the text of a Shelley address leads back to its bytes exactly when it has at most 256 characters. |
| `Address.TextBegins` | wallet/address_types.go:66-70 | The text of an address begins with "addr1" or "stake1" on network 1 and with "addr_test1" or "stake_test1" on network 0. |
| `Address.ByronRoundTrip` | wallet/address_types.go:305-385 | A Byron address comes back from its text when base58 does and the text does not start like a Shelley address, and from its info unless the inner part does not decode; the info holds the hash and the network the inner part names. |
| `Address.TextIsCanonical` | wallet/address.go:70-114 | The text of the Shelley bytes read from a string is the lower case of that string exactly when its prefix is the one of the header's network. |
| `Address.CardanoAddress.GetInfo` | wallet/address.go:95-101 | The info returned is the parsed one, cached unless it is unsupported. |
| `Address.CardanoAddress.String` | wallet/address.go:107-113 | The text returned is the one given at construction or the computed one; either denotes the raw bytes. |
| `Address.NewCardanoAddress` | wallet/address.go:50-68 | Succeeds exactly on bytes valid for the type in their header, Byron included. |
| `Address.NewCardanoAddressFromString` | wallet/address.go:70-93 | Succeeds exactly on bech32 strings with valid bytes, keeping the string as cached text, and on base58 strings with valid Byron bytes; "addr" or "stake" in front tells the two apart. |
| `Address.ToCardanoAddress` | wallet/address.go:124-131 | For supported types succeeds exactly when the bytes made from the info are valid, and the address holds those bytes; for a proper Shelley info it leads back to it. |
| `CircularQueues.RingWrite` | common/circular_queue.go:19-28 | Writing behind the last element of a ring appends to the sequence it represents and disturbs nothing before. |
| `CircularQueues.RingAdvance` | common/circular_queue.go:30-43 | Moving the head of a ring drops the first element, whatever is left in the vacated slot. |
| `CircularQueues.CircularQueue.Push` | common/circular_queue.go:19-28 | Appends unless full. |
| `CircularQueues.CircularQueue.Pop` | common/circular_queue.go:30-43 | Removes and returns the oldest element, or the zero value. |
| `CircularQueues.CircularQueue.Peek` | common/circular_queue.go:45-55 | The oldest element, or the zero value. |
| `CircularQueues.CircularQueue.SetCount` | common/circular_queue.go:65-67 | Truncates to a prefix; beyond the old end it exposes the slots behind it, and a negative count is stored as it is. |
| `CircularQueues.CircularQueue.ClearFrom` | common/circular_queue.go:69-81 | Keeps exactly the elements before the given place. |
| `CircularQueues.CircularQueue.Find` | common/circular_queue.go:83-93 | The first index that satisfies the handler, or -1 when none does. |
| `CircularQueues.CircularQueue.ToList` | common/circular_queue.go:95-104 | The queued elements, oldest first. |
| `Keys.BigEndianOrder` | indexer/utils.go:35-42 | Big-endian keys of one width compare like the numbers. |
| `Keys.CursorUnique` | indexer/db/bbolt/bbolt.go:130-184 | The byte order of a key set is unique, so a cursor has one possible visit order. |
| `IndexerData.InputKeyInverse` | indexer/data.go:202-220 | `Set` undoes `Key` for every input. |
| `IndexerData.KeyOfDecoded` | indexer/data.go:202-220 | `Key` undoes `Set` for every 36-byte key. |
| `IndexerData.SlotKeyOrder` | indexer/utils.go:35-42 | Slot keys are ordered like slots. |
| `IndexerData.TxKeyMeaning` | indexer/data.go:127-134 | Keys of transactions are equal exactly when slot and index are, and are ordered by slot and then by index. |
| `IndexerData.GetTxOutputs` | indexer/utils.go:57-73 | The nested append loops list the outputs of interest with their input keys, in order. |
| `IndexerData.GetTxInputs` | indexer/utils.go:75-85 | The nested append loops list the inputs of interest, in order. |
| `Stores.TransactionWriter.Execute` | indexer/db/bbolt/bbolt_txwriter.go:158-172 | All queued operations take effect in order, or none when any of them or the commit fails; the queue is empty afterwards either way; a removal of all outputs at the end leaves none. |
| `Stores.RunOp` | indexer/db/bbolt/bbolt_txwriter.go:21-156 | The queued closures, with their loops over the bucket, do what the operations mean. |
| `Stores.TransactionWriter.RemoveTxOutputs` | indexer/db/bbolt/bbolt_txwriter.go:103-142 | Queues nothing for an empty list, and otherwise one removal in the given mode. |
| `Stores.Database.MarkConfirmedTxsProcessed` | indexer/db/bbolt/bbolt.go:81-100 | Moves the given transactions in one database transaction: an unprocessed one stays exactly when none with its slot and index is marked, and marked ones at different places are all processed. |
| `Stores.MoveConserves` | indexer/db/bbolt/bbolt.go:81-100 | Marking moves exactly the named transactions between the two buckets and touches nothing else. |
| `Stores.MarkedByPlace` | indexer/db/bbolt/bbolt.go:81-100 | The same said of transactions by slot and index. |
| `Stores.AddedByPlace` | indexer/db/bbolt/bbolt_txwriter.go:80-101 | Adding transactions at different places loses none of them, keeps the others and adds nothing else. |
| `UtxoReplay.BatchIsReplay` | indexer/db/bbolt/bbolt_txwriter.go:38-142 | For every bucket and block: the batch of all adds followed by all removes equals the replay transaction by transaction if and only if no spent output is created at or after its last spending. |
| `UtxoReplay.SpentTooEarly` | indexer/db/bbolt/bbolt_txwriter.go:38-142 | A block whose first transaction spends what the second one creates: batch and replay differ on every bucket. |
| `UtxoReplay.ValidBlock` | indexer/block_indexer.go:188-215 | Without forward and self references the batch is the replay, also when an output is spent in its own block. |
| `UtxoReplay.ReplayConcat` | indexer/block_indexer.go:170-223 | The replay of two chains in a row is the replay of their concatenation. |
| `UtxoReplay.ChainIsReplay` | indexer/block_indexer.go:170-223 | The same for whole chains. |
| `Indexing.BlockOpsMeaning` | indexer/block_indexer.go:180-215 | Executing the operations queued for a block yields the described database: bucket, latest point, unprocessed transactions and confirmed block. |
| `Indexing.OfInterestByFlags` | indexer/block_indexer.go:225-265 | Which transactions are selected, for each value of the flags: 1 looks at inputs, 2 at outputs, 3 at both. |
| `BlockIndexers.BlockIndexer.constructor` | indexer/block_indexer.go:47-68 | A new indexer has an empty queue of the configured size, no latest point and the configured interest set. |
| `BlockIndexers.CommitFacts` | indexer/block_indexer.go:180-215 | A committed block has slot, hash, number and era of its header and the hashes of all or of the selected transactions, and every selected one is stored as unprocessed when no two share slot and index. |
| `BlockIndexers.BlockIndexer.RollForward` | indexer/block_indexer.go:111-142 | Moves memory and database as the transition function says, for every retrieval, read, execution and handler failure; the handler receives exactly the committed block, which has the oldest queued header and the hashes of all or of the delivered transactions, and its transactions of interest, all of which are stored as unprocessed; a failing handler is reported after the commit. |
| `BlockIndexers.BlockIndexer.RollBackward` | indexer/block_indexer.go:78-109 | Cuts the queue behind the point if it is queued, empties it at the latest confirmed point, and is fatal, without effect, exactly when the point is neither. |
| `BlockIndexers.BlockIndexer.Reset` | indexer/block_indexer.go:144-168 | Resumes with an empty queue from the stored point, else exactly the configured one, else slot zero with a hash of 32 zeros. |
| `BlockIndexers.BlockIndexer.ProcessConfirmedBlock` | indexer/block_indexer.go:170-223 | Either nothing is stored, or everything the block implies is stored and returned. |
| `BlockIndexers.BlockIndexer.QueueBlock` | indexer/block_indexer.go:185-215 | The writer holds exactly the operations of the block, in order. |
| `BlockIndexers.BlockIndexer.FilterTxsOfInterest` | indexer/block_indexer.go:225-265 | Keeps the transactions with an input or output of interest under the configured checks, in order; keeps all when nothing is of interest. |
| `BlockIndexers.BlockIndexer.PopulateOutputsForEachInput` | indexer/block_indexer.go:267-282 | Fills every unset input from the database and leaves the others; when a read fails, exactly the unset inputs before it are filled. |
| `Indexing.PopulateRest` | indexer/block_indexer.go:267-282 | What a failed attempt has filled in does not change what the next attempt on the same database makes of the transactions. |
| `FilteredIndex.KeepAllIsBatch` | indexer/block_indexer.go:188-190 | With all outputs kept, or without addresses of interest, a block changes the bucket by its full batch. |
| `FilteredIndex.KeepAllIsReplay` | indexer/block_indexer.go:170-223 | Hence the bucket after any chain without forward or self references is its replay. |
| `FilteredIndex.FilteredBlock` | indexer/block_indexer.go:180-194 | One block of the filtered index keeps the bucket equal to the restricted full one if and only if no output of interest is spent in its own block (or the empty address is of interest). |
| `FilteredIndex.FilteredIsReplay` | indexer/block_indexer.go:180-282 | The filtered index of blocks a ledger delivers, none of which spends its own output of interest, is the full replay restricted to the addresses of interest. |
| `FilteredIndex.FilteredExactly` | indexer/block_indexer.go:180-282 | It is that restriction after every block if and only if no block spends its own output of interest (or the empty address is of interest). |
| `FilteredIndex.UntraceableBlock` | indexer/block_indexer.go:180-194 | A concrete block a ledger may deliver on which the filtered index fails. |
| `ChainIndex.StepIndexes` | indexer/block_indexer.go:111-142 | Every event of a run either leaves bucket and stored blocks alone or indexes exactly the transactions its retriever delivered. |
| `ChainIndex.RunIsIndexed` | indexer/block_indexer.go:111-223 | In every run, with failures, crashes and restarts, the bucket is the index of the committed blocks, one list of transactions for each stored block. |
| `ChainIndex.RunIsReplay` | indexer/block_indexer.go:111-223 | Hence with all outputs kept the bucket of every run is the transaction-by-transaction replay of the committed chain. |
| `ChainIndex.FilteredRunIsReplay` | indexer/block_indexer.go:111-282 | And with addresses of interest it is that replay restricted to them, while every block is traceable. |
| `Queries.GetConfirmedBlocksFrom` | indexer/db/bbolt/bbolt.go:158-184 | The cursor loop returns a prefix of the blocks from the first key not below the slot: as many as asked for, or all of them. |
| `Queries.GetLatestConfirmedBlocks` | indexer/db/bbolt/bbolt.go:130-156 | The backward cursor loop returns a prefix of the blocks in descending order: as many as asked for, or all of them. |
| `Queries.BlockQueries` | indexer/db/bbolt/bbolt.go:130-184 | On a bucket that holds a chain both queries return exactly the matching slice of the chain. |
| `Queries.GetAllTxOutputs` | indexer/db/bbolt/bbolt.go:186-217 | Fails exactly when an entry asked for has a key that is no input key, and otherwise returns every matching entry once, decoded and sorted. |
| `Queries.SortTxInputOutputs` | indexer/utils.go:17-33 | The same elements equally often, none before an earlier one; ordered by slot of the output, then hash and then index of the input, strictly when the inputs are distinct. |
| `Queries.SortedUnique` | indexer/utils.go:9-33 | The order is total on distinct inputs, so the sorted list is unique. |
| `SoftDelete.SimulationStep` | indexer/db/bbolt/bbolt_txwriter.go:38-156 | One operation keeps soft-deleted and hard-deleted database equal up to used entries. |
| `SoftDelete.SoftSimulatesHard` | indexer/db/bbolt/bbolt_txwriter.go:38-156 | So does every sequence of operations that adds outputs unused. |
| `SoftDelete.SameAnswers` | indexer/db/bbolt/bbolt.go:186-217 | Hence answers to the query for unused outputs are the identical sorted list in both modes. |
| `SoftDelete.WriterKeepsKeys` | indexer/db/bbolt/bbolt_txwriter.go:38-156 | The writer only ever makes keys of inputs in the bucket. |
| `SoftDelete.BothModesAnswer` | indexer/db/bbolt/bbolt.go:186-217 | From an empty database, after any operations that add outputs unused, both modes answer the query and with the same list. |
| `SoftRuns.RunsInStep` | indexer/block_indexer.go:165-282 | Two indexers that differ only in SoftDeleteUtxo, fed the same events without double spends, agree in everything but the used entries, over every run with failures, crashes and restarts. |
| `SoftRuns.SoftRunIsReplay` | indexer/db/bbolt/bbolt_txwriter.go:38-142 | Keeping all outputs, the unused entries of a soft-deleting run are the replay of the committed chain. |
| `SoftRuns.BothRunsAnswer` | indexer/db/bbolt/bbolt.go:186-217 | After every such run both indexers answer the query for unused outputs, and with the same list. |
| `ChainRuns.RunKeepsInv` | indexer/block_indexer.go:78-168 | Every run of roll forwards, roll backs, failures, crashes and restarts keeps the stored chain and the memory that mirrors its end. |
| `ChainRuns.BackwardMeaning` | indexer/block_indexer.go:78-109 | A rollback to a point of the presented chain is fatal exactly when the point lies strictly before the last confirmed block, and then changes nothing; otherwise it cuts the queue there. |
| `ChainRuns.ConfirmedThenQueue` | indexer/block_indexer.go:111-142 | In every run the blocks confirmed above the point of the last Reset followed by the queue are the presented chain, their number is max(0, greatest height - ConfirmationBlockCount), and the latest point is the last of them. |
| `ChainRuns.CrashSafety` | indexer/block_indexer.go:125-167 | In every run the stored blocks form one gap-free, duplicate-free chain that ends at the stored latest point, and ordered queries return its slices. |
| `ChainRuns.ChainFromStart` | indexer/block_indexer.go:111-167 | The stored chain spelled out for every run: the first block is the child of the configured starting point (slot zero and zeros if none), each other one of the block before it, slots increase, and the stored latest point is slot and hash of the last block. |
| `ChainRuns.ZeroConfirmationsBreaks` | indexer/block_indexer.go:115-139 | With ConfirmationBlockCount 0, for every configuration, header and successful retrieval, the first header confirms the zero header and the stored blocks are no chain. |
| `ChainRuns.ConfirmationsNeeded` | indexer/block_indexer.go:111-142 | The stored blocks form a chain in all runs if and only if ConfirmationBlockCount is at least 1, or no slot lies behind the starting point. |
| `RunnerSteps.StepKeepsInv` | indexer/block_indexer_runner.go:79-212 | Every step of every participant keeps the structure of channels and loops and the trace of handler calls. |
| `RunnerProofs.RunKeepsInv` | indexer/block_indexer_runner.go:50-212 | The structural and trace invariants hold after every interleaving. |
| `RunnerProofs.RunnerProtocol` | indexer/block_indexer_runner.go:79-212 | In every interleaving at most one main loop is live, none is inside the handler during the handler's Reset, handler calls are legal, each generation handles a prefix of its queue in order, and every call, also a retried one, carries the item at its place in that queue. |
| `RunnerProofs.NothingOldAfterReset` | indexer/block_indexer_runner.go:109-133 | No item of an old queue is handled after the next Reset entered the handler. |
| `RunnerProofs.CallsDoNotOverlap` | indexer/block_indexer_runner.go:170-212 | Nothing enters the handler between a call and its return. |
| `RunnerProofs.NoChannelClosedTwice` | indexer/block_indexer_runner.go:109-154 | A Reset that may start finds its stop channel open, and a leaving loop finds its finished channel open. |
| `RunnerProofs.StopIsHeeded` | indexer/block_indexer_runner.go:139-212 | While a Reset waits, the loop can leave at once, except inside the handler or on a full error channel. |
| `RunnerItems.ItemsArrive` | indexer/block_indexer_runner.go:79-107 | In every interleaving the items put into a generation's queue are exactly those of the calls that got through to it, in that order, and the waiting producers are exactly the calls begun and neither got through nor given up, each with its item and the generation it read on entry. |
| `RunnerItems.ProducerGoesOn` | indexer/block_indexer_runner.go:79-107 | A waiting producer can put exactly when its queue has room, can hand over exactly when a loop waits at an empty queue, and can give up after Close or a Reset. |
| `RunnerItems.ClosedByClose` | indexer/block_indexer_runner.go:69-77 | The runner is closed exactly when Close was called. |
| `RunnerItems.ResetStops` | indexer/block_indexer_runner.go:109-111 | Every call of Reset stops the generation that is current then, and nothing else stops one. |
| `RunnerItems.LeavesWhenTold` | indexer/block_indexer_runner.go:79-212 | A waiting producer gives up, and a waiting or delayed loop leaves, exactly when Close was called or its generation was reset; a waiting Reset returns unfinished exactly after Close. |
| `RunnerItems.ResetBeforeRecreation` | indexer/block_indexer_runner.go:118-131 | New channels are made only after the handler's Reset has succeeded for the generation before. |
| `RunnerItems.ResetAgain` | indexer/block_indexer_runner.go:109-133 | Reset can be called exactly when every call before has run to its end. |
| `RunnerItems.ResetFinishes` | indexer/block_indexer_runner.go:118-133 | After a successful handler Reset new empty channels are made and a loop is launched that starts on them; after a failed one nothing of this. |
| `RunnerItems.ResultDecides` | indexer/block_indexer_runner.go:180-211 | After a success or another error the loop can take the next item, after a fatal error only report, and after a retry error only call the handler again with the same item. |
| `RunnerItems.FatalErrorsReported` | indexer/block_indexer_runner.go:193-196 | In every interleaving each fatal error the handler returned is in the error channel, was read from it, or is about to be put into it. |
| `Amounts.Exchange` | sendtx/utxo_helper.go:53-65 | A choice no left-out number of which exceeds a kept one beats every other choice of its size. |
| `Amounts.KeptIsBest` | sendtx/utxo_helper.go:53-65 | Keeping the k largest numbers is an optimal choice of at most k. |
| `Amounts.ReachMeaning` | sendtx/utxo_helper.go:36-76 | The goal can be reached exactly when some non-empty choice of at most k numbers reaches it. |
| `WalletData.TokenNameRoundTrip` | wallet/data.go:31-53 | Parsing a full token name gives the token back exactly when its policy id has no dot, and otherwise fails. |
| `WalletData.TokenNameText` | wallet/data.go:86-88 | A full name is the policy id, a dot, and two lower-case hexadecimal digits for every byte, the higher one first. |
| `WalletData.HexDecodes` | wallet/data.go:44-47 | Exactly the strings of even length over the hexadecimal digits of either case decode. |
| `WalletData.PlainNameParsed` | wallet/data.go:37-42 | An unencoded full name gives policy id and name as they stand. |
| `WalletData.GetTokenAmount` | wallet/data.go:101-113 | The lovelace for "lovelace", else the amount of the first token with the name, else zero. |
| `WalletData.AmountIsContribution` | wallet/transaction_extended.go:207-219 | For a token listed at most once the compared amount is all the UTXO adds to the sum. |
| `WalletData.AddUtxo` | sendtx/utxo_helper.go:41-47 | All entries of the sum map become the sums with the UTXO, modulo 2^64. |
| `WalletData.SubtractUtxo` | sendtx/utxo_helper.go:60-64 | All entries become the sums without the UTXO, modulo 2^64; no entry disappears. |
| `CoinSelection.DoesSumSatisfyCondition` | sendtx/utxo_helper.go:143-153 | True exactly when every desired amount is reached, missing entries counting as zero. |
| `CoinSelection.ChooseReplaceName` | sendtx/utxo_helper.go:117-126 | A token with the greatest deficit, or lovelace when nothing is missing. |
| `CoinSelection.FindMinUtxo` | sendtx/utxo_helper.go:128-140 | The first element with the least amount of the token. |
| `CoinSelection.CheckThenEvict` | sendtx/utxo_helper.go:49-65 | Checking k - 1 kept UTXOs together with the next one decides whether any choice of k reaches the goal. |
| `CoinSelection.EvictThenCheck` | wallet/transaction_extended.go:92-112 | Checking k kept UTXOs after evicting decides the same. |
| `Selectors.PrepareTxInputs` | sendtx/utxo_helper.go:90-112 | Returns the prefix of length max(chosen, min(length, wished, maximum)) with its sums. |
| `Selectors.GetUTXOsForAmounts` | sendtx/utxo_helper.go:26-76 | For any conditions: the slice is rearranged only among visited UTXOs, inputs and sums belong to one prefix that meets the conditions, the sums list every name of a visited UTXO, and the two failures tell whether all UTXOs together would do; the visits form a run in which only a UTXO with the least of a most missing token is given up. For one token: success, stopping place and total are the optimum. |
| `SelectionLimits.ChoiceIsFound` | sendtx/utxo_helper.go:14-76 | When no total overflows and nothing is asked for, or one condition on a token that no UTXO lists twice, or a limit of at most one (below one is none), or no more UTXOs than the limit: success if and only if some non-empty choice within the limit meets all conditions, as the comment promises of the error. |
| `MissedChoices.ChoiceIsMissed` | sendtx/utxo_helper.go:14-151 | For every limit m >= 2 and number of UTXOs n > m (up to 2^32): two conditions and n UTXOs with small amounts for which every run reports the limit although a choice of m of them meets both. |
| `MissedChoices.TwiceIsMissed` | sendtx/utxo_helper.go:14-151 | For every such limit and number: one condition on a token that one UTXO lists twice, for which every run reports the limit although a choice of m UTXOs meets it. |
| `MissedChoices.OverflowIsMissed` | sendtx/utxo_helper.go:14-76 | Two UTXOs whose sum wraps to zero: an amount that both together exceed is reported out of reach. |
| `SelectionLimits.SelectedIsChoice` | sendtx/utxo_helper.go:32-54 | Whatever is selected, for any conditions whose totals do not overflow, is a choice within the limit that meets them all. |
| `Selectors.InPlaceMeaning` | sendtx/utxo_helper.go:32-112 | A successful selection keeps the multiset of UTXOs, respects the maximum, names UTXOs by hash and index, uses no input twice, and its returned sums are exact and satisfy every condition for totals within 64 bits. |
| `AppendSelector.GetUTXOsForAmount` | wallet/transaction_extended.go:43-124 | At most the maximum number of different visited UTXOs with their sums, or the kind of failure; for one token the optimum. |
| `Selectors.GetUtxosSum` | wallet/utils.go:10-22 | The sums of all UTXOs modulo 2^64. |
| `AppendSelector.SelectorsAgree` | sendtx/utxo_helper.go:26-76 | Whatever the two selectors may return for one token: both succeed exactly when some non-empty choice within the maximum reaches the amount, stop after the same UTXOs, return the same greatest total, and otherwise fail alike: limit reached exactly when all UTXOs together suffice. |
| `TokenLists.GetOutputsSum` | wallet/utils.go:25-37 | The sums of all outputs modulo 2^64. |
| `TokenLists.GetTokensSumMap` | wallet/transaction_extended.go:256-264 | The total of every listed token modulo 2^64, repeated tokens included. |
| `TokenLists.SubtractSumMaps` | wallet/transaction_extended.go:225-243 | Truncated difference for every name; an entry survives exactly when it stays positive or is not subtracted from. |
| `TokenLists.NameLessMeaning` | wallet/utils.go:77-79 | The order of token names: a proper prefix comes first, else the smaller character at the first place where two names differ. |
| `TokenLists.GetTokensFromSumMap` | wallet/utils.go:57-82 | For a non-empty map, a token list sorted by name that lists exactly the names but lovelace and the skipped ones, with their sums; fails exactly when such a name does not have two parts. |
| `TokenLists.GetMinUtxoForSumMap` | wallet/transaction_extended.go:129-151 | The minimum is asked for an output carrying exactly the given sums, and a positive sum whose name does not parse is an error. |
| `TxBuilders.TxBuilder.AddInputs` | wallet/transaction.go:142-150 | Appends. |
| `TxBuilders.TxBuilder.UpdateOutputAmount` | wallet/transaction.go:168-182 | Changes lovelace and the given token amounts of one output, counted from the end for negative indices, and nothing else. |
| `TxBuilders.TxBuilder.RemoveOutput` | wallet/transaction.go:184-193 | Removes one output and keeps the order of the others. |
| `TxBuilders.TxBuilder.CheckOutputs` | wallet/transaction.go:355-365 | Passes exactly when every output has lovelace. |
| `TxSending.GatherOutputs` | sendtx/tx_sender.go:357-385 | Outputs in order, lovelace summed modulo 2^64, and every token merged into one entry with its total. |
| `TxSending.SubtractTokens` | sendtx/tx_sender.go:419-426 | The sums without the outputs' tokens, modulo 2^64; the names subtracted are left exactly when their sum is not zero, the others unchanged. |
| `TxSending.MakePlan` | sendtx/tx_sender.go:350-446 | Inputs, change and least change are decided so that the inputs reach outputs, potential fee and least change; each error has its stated cause, and where the selection is complete a selection error means that no choice within the limit reaches the demand. |
| `TxSending.DemandByConfig` | sendtx/tx_sender.go:399-408 | What is asked for, spelled out: the outputs, the configured potential fee (400000 if none is configured) and the least change, and of a token what the receivers get. |
| `TxSending.ChangeCoversMinimum` | sendtx/tx_sender.go:387-399 | A kept change holds at least the configured minimum and the one calculated for an output of everything the receivers do not get. |
| `TxSending.ZeroIsListed` | sendtx/tx_sender.go:416-446 | The change lists a token with an amount of zero exactly when a visited UTXO has the token, no receiver gets it and the chosen ones hold nothing of it. |
| `TxSending.GivenUpIsListed` | sendtx/utxo_helper.go:56-65 | A concrete request whose change lists a token with an amount of zero. |
| `TxSending.PopulateTxBuilder` | sendtx/tx_sender.go:343-459 | The builder gets the chosen inputs, the receivers' outputs and a change output with all remaining tokens, behind what it held; each error has its stated cause. The time to live is the tip plus the configured increment, or plus 500. |
| `TxSending.Rejects` | sendtx/tx_sender.go:316-322 | The wrapped test rejects exactly when the fee exceeds what is available or something but less than the minimum would be left. |
| `TxSending.ValueBalance` | sendtx/tx_sender.go:294-341 | Lovelace out plus fee equals lovelace in modulo 2^64, and each token balances exactly when the change is kept or holds none of it; without modulus if and only if the inputs cover outputs and fee with less than 2^64 to spare. |
| `TxSending.ChangeIsKept` | sendtx/tx_sender.go:316-328 | With amounts that fit, a fee within the potential fee and a positive minimum the change is kept, holds at least the minimum, and lovelace and tokens balance exactly. |
| `TxSending.ZeroChangeDropsTokens` | sendtx/tx_sender.go:324-328 | A concrete selection whose fee takes all the change, so that the token it should have carried is in no output. |
| `TxSending.EnoughChosen` | sendtx/tx_sender.go:402-414 | When nothing overflows the chosen inputs cover everything, and a fee within the potential fee is never rejected. |
| `TxSending.OverflowUnbalances` | sendtx/tx_sender.go:402-404 | A concrete input whose demand wraps around: inputs pass every test and the outputs exceed them. |
| `TxSending.CreateTx` | sendtx/tx_sender.go:294-341 | On success the builder holds exactly the chosen inputs, the calculated fee, the receivers' outputs and the change, if any; every error has its cause; when amounts fit, an insufficient change means a fee above the configured potential fee, or above 400000 if none is configured. The time to live is the tip plus the configured increment, or plus 500. |
| `TxSending.CreateFreshTx` | sendtx/tx_sender.go:294-341 | On a fresh builder every success is a finished transaction that balances modulo 2^64 and exactly for all amounts that fit; its inputs are different UTXOs of the sender, at most as many as allowed; a change goes to the sender and holds at least the configured and the calculated minimum; when amounts fit, a calculated fee within the configured potential fee (400000 if none) is never the reason to fail, and with a positive minimum the change is kept. Where nothing overflows and only lovelace is asked for (or at most one input is allowed, or no more UTXOs than inputs exist), a selection error means that no choice within the limit reaches the demand. |
| `Bridging.TransactionsKeepAmounts` | sendtx/tx_sender.go:168-183 | The metadata amounts add up to the receivers' amounts. |
| `Bridging.GetOutputAmounts` | sendtx/metadata.go:46-54 | The bridging fee plus all amounts, modulo 2^64. |
| `Bridging.SplitString` | common/utils.go:4-10 | Pieces of the given length, in order. |
| `Bridging.PiecesJoin` | common/utils.go:4-10 | Joined, the pieces are the string again; none is empty or too long, and all but the last are full. |
| `Bridging.MetaDataAddrMeaning` | sendtx/utils.go:9-13 | An address in the metadata, spelled out: "0x" in front is cut off, then "0X", and the rest comes in pieces of 40 characters. |
| `Bridging.AdjustLovelaceOutput` | sendtx/tx_sender.go:547-563 | Enough for, and not more than the greatest of, the amount, the configured minimum and, with tokens, the minimum for an output of them; fails when a name does not parse, and otherwise only when that minimum is not answered. |
| `Bridging.TxSender.constructor` | sendtx/tx_sender.go:23-41 | The least amount to bridge is the greatest minimum of all configured chains. |
| `Bridging.TxSender.CreateMetadata` | sendtx/tx_sender.go:156-192 | Succeeds exactly when both chains are known and every receiver has an address and at least the least amount; each transaction has its receiver's address and amount; otherwise names the first receiver in the way. |
| `Bridging.TxSender.PrepareBridgingTx` | sendtx/tx_sender.go:208-266 | Succeeds exactly when all checks pass, and otherwise names the failed one; the bridging output is the receivers' total plus the returned bridging fee, whether or not it was raised to the minimum. |
| `Bridging.TxSender.CreateGenericTxDtoAndMetadata` | sendtx/tx_sender.go:460-494 | One receiver with the prepared lovelace, and metadata whose total is the receivers' total plus the prepared fee. |
| `Bridging.TxSender.CreateBridgingTx` | sendtx/tx_sender.go:43-66 | Every created transaction pays the bridging address exactly the total of its metadata modulo 2^64, from different UTXOs of the sender, with the change going back to it, and is finished and balanced like any other; without overflow the output is the greater of the receivers' total and the chain's minimum, plus the fee asked for. Every error has its cause. |
| `Bridging.TxSender.CreateTxGeneric` | sendtx/tx_sender.go:93-127 | Receivers are raised in place to what their outputs need; when an adjustment fails that receiver has an amount of zero, those before it are raised and those behind it untouched. The created transaction pays exactly the receivers, each at least the configured minimum, from the chosen UTXOs, finished and balanced. |
| `Bridging.LoweredExactly` | sendtx/tx_sender.go:118-123 | No amount is lowered when all adjustments succeed; where every minimum is answered, an amount is lowered if and only if the first receiver with a token whose name does not parse was to get some lovelace. |
| `Bridging.UnreadableTokenLowers` | sendtx/tx_sender.go:118-123 | A receiver of five lovelace and a token with a dot in its policy id: the five are gone in every outcome. |

## Left out

- Byron addresses: the CBOR, CRC32 and base58 library code is a parameter; an inner hash shorter than 28 bytes, on which Go panics, is not modelled.
- Error patterns wider than six symbols, and errors in the human-readable part: these need the full distance argument of BIP 173 with its length bound.
- `strings.ToLower` outside ASCII: strings are byte strings, and the scan rejects everything else before it matters; the encoder's human-readable part is lower-cased byte by byte.
- bbolt and JSON: buckets are maps ordered by key bytes, values are records, and `Update` is apply to a copy, then commit or discard.
- Sharing of `*Tx` and `*TxInputOutput` between retriever, indexer and handler: transactions are values, so a caller that keeps the pointers and sees its inputs filled in is not captured.
- `sort.Slice`: modelled by insertion; the order is total on distinct inputs and on distinct token names, so the result is the same.
- `AddNewAddressesOfInterest` during a run and `TransformUtxos`: they change what the theorems keep fixed.
- `GetUnprocessedConfirmedTxs` and the string forms of the records: the same cursor loop again, and formatting.
- A runner `Reset` after a failed handler `Reset` or after `Close`: the stop channel would be closed twice, and the model stops at the state `Aborted`.
- Retry delays, logging, mutexes of the indexer (its methods are atomic steps), and the node connection.
- TxBuilders.TxBuilder.AddInputs: policy scripts attached to inputs, mints, certificates and withdrawals are not modelled, since no balance depends on them.
- TxSending.CreateTx: fee, minimum UTXO, tip and the built transaction are arbitrary answers; the order in which Go visits a sum map is arbitrary too.
- Bridging.TxSender.CreateMetadata: the JSON form of the metadata and its constant type field are not part of this model.
- `CalculateBridgingTxFee`, `GetBridgingFee`, `SubmitTx`, `CreateTxOutputChange`, `AddSumMaps`: compositions of what is modelled, or I/O.
