# History lookup, its wire codec, and the memory record list

A Dafny model of three parts of a Go blockchain node, with proofs of what they promise.

**The protobuf wire codec.** The generated codecs of `EpochByHash`, `MiniblockMetadata`, `consensus.Message` and the
nested `ResultsHashesByTxHash` are instances of one template. The template is modelled once, over a schema that lists
the kinds of the fields, and instantiated four times. There are two forms of it:

- what the bytes mean, as functions: `Varint.dfy`, `Skip.dfy` (unknown fields, with the grammar of nested groups),
  `Wire.dfy` (printing as an ascending concatenation, parsing record by record);
- what the generated code does, as methods: `Printer.dfy` fills a buffer backwards from the last field to the first,
  `Parser.dfy` moves wrapping `int` indices over the input and sets the fields of a message object as it meets them.

Every method is proved equal to its function, and the laws are proved about the functions: `RoundTrip.dfy`,
`Merging.dfy` (concatenation is merge), `Reencoding.dfy` (re-encoding does not grow), `Schemas.dfy` (the four types).
Two files say what the functions must be without naming them: `Acceptance.dfy` which inputs are accepted, what each
record does to the message and with which error anything else is refused; `WireBytes.dfy` the bytes of each type, field
by field under literal tags.

**The history repository.** `History.dfy` gives each operation as a function of the repository's state: hash to epoch,
(epoch, hash) to record, transaction to miniblock, the deduplication cache and the three maps of notarization
notifications that wait for their record. `HistoryRepository.dfy` has the object itself, whose stores hold marshalled
bytes and whose methods are proved to do what those functions say. `HistoryRuns.dfy` and `HistoryIndexes.dfy` prove
what holds after any sequence of operations under stated conditions, and `HistoryEvictions.dfy` what holds when keys are
evicted and miniblocks are recorded in several epochs. `Interleaving.dfy` takes the operations apart into single steps
on the shared stores and interleaves a recorder, a consumer and arriving notifications. `InterleavingLosses.dfy` says
exactly when forgetting a consumed notification loses it, and `InterleavingOutcomes.dfy` exactly when a whole
interleaving does. `HistoryFields.dfy` says in terms of blocks, metablocks and the fields of the records alone what
recording and notarizing do, for single calls and for runs. `EventsIndex.dfy` is the second store, the append-only log of results of each
transaction.

**The bounded list of memory usage records.** `Records.dfy`: an online top-k with sorted insertion and eviction.

## Where the code falls short of what one would expect of it

Each of these has a lemma with an input or a run that shows it, and one with the exact condition. Where coordinates are
lost, a notification that is no different from a fresh record's (nonce 0 and no hash) counts as kept.

- Unmarshalling `a + b` does not always return the error that unmarshalling `b` into the result of `a` returns. It does
  if and only if no record of `b`, behind an accepted prefix of `b`, asks for an end that is an `int` in `b` alone and
  wraps around behind `a` (`ConcatenationIsMerge`, `ConcatenationCanChangeTheError`). The message and acceptance are
  always the same.
- Re-encoding accepted metadata can grow it: a record has an accepted form shorter than its encoding if and only if its
  `Type` is negative, and then by at most 5 bytes (`GrowsExactlyWhenNegative`, `NegativeTypeGrowsByFive`).
- Recording a miniblock whose key is not cached, because it was evicted or because the epoch is another one, drops the
  notarization coordinates consumed before. After any run of whole operations whose writes succeed, the record with all
  that waits for it is what the log says if and only if no such recording comes after the last notification of a side
  was consumed (`RecordIsExpectedUnlessLost`, `EvictionLosesCoordinates`); after an `OnNotarizedBlocks` lookups give it.
- When single steps interleave, a notification can be lost in three ways: the consumer forgets a newer one or one that it
  put into a record that lookups no longer give; the recorder saves another epoch when nothing waits; after an eviction
  the consumer puts the record it read over a newer one. In any interleaving in which no write of the miniblock's fresh
  record fails, the record that lookups will give is what the log says if and only if the last of the steps that decide
  on a side was none of these (`SettledIsExpectedIff`; `LostAcrossEpochs`, `LostWhenRenotified`, `LostToLaterRecording`).
  For the consumer's own step alone, while no key of the miniblock is evicted: forgetting loses nothing if and only if
  the last notification since the one it took is the same and no epoch was saved for the miniblock since it read the
  epoch (`ConsumeLosesNothingIff`).
- A receipt drops the smart contract results that its own batch has for the same transaction: a result reaches the log
  if and only if its transaction has no receipt in the batch (`ResultIsLoggedUnlessReceipt`, `ReceiptDropsResults`).
- A stored receipt hash survives a save if and only if the batch has nothing for the transaction, its write fails, or the
  batch brings the same hash again (`ReceiptHashIsKept`, `ReceiptHashIsKeptByPools`, `LaterBatchDropsReceipt`).

## Model

| member | source | states |
|---|---|---|
| Varints.SovIsExact | consensus/message.pb.go:493-495 | the bit-length formula `(Len64(v\|1)+6)/7` is the count of bytes that the encoding loop writes, for every uint64 |
| Varints.VarintRoundTrip | dblookupext/miniblockMetadata.pb.go:390-400 | every uint64, written anywhere in a buffer, is read back whole by the ten-group decoding loop, from exactly `sov` bytes, 1 to 10 |
| Varints.EncodeVarint | consensus/message.pb.go:419-429 | the encoding loop fills exactly the `sov(v)` bytes that end at the offset with the varint of v, returns where they begin, and changes no other byte |
| Varints.OrGroupAdds | consensus/message.pb.go:545-545 | `\|=` of the shifted group, bit by bit and within the variable's width, adds it to the number read so far: its bits are still clear, and those past the width are lost |
| Varints.AccumulateReads | consensus/message.pb.go:535-549 | or-ing groups within the variable's width yields the whole number cut once at the end, and stops for the same reason |
| Varints.DecodeVarint | consensus/message.pb.go:535-549 | the loop returns the value cut to the variable's width and the bytes consumed, or overflow (tested first) or end of input, with the bits read so far |
| Varints.ReadNeverShorterThanWritten | dblookupext/miniblockMetadata.pb.go:822-840 | no value at most the one read needs more varint bytes than were read for it |
| WireBytes.VarintByte | consensus/message.pb.go:422-427 | the i-th byte of a varint has the i-th 7-bit group, least significant first, and its top bit is set exactly when more follow |
| WireBytes.EpochBytes | dblookupext/epochByHash.pb.go:147-158 | an epoch is the tag 08 and its varint, zero is nothing |
| WireBytes.MetadataBytes | dblookupext/miniblockMetadata.pb.go:307-388 | a metadata record is the concatenation, in this order, of its 13 named fields under the tags 08, 10, 18, 20, 2A, 32, 3A, 40, 48, 50, 5A, 62, 68: numbers as varints, a negative type as 64-bit two's complement, bytes behind their length, unset fields left out |
| WireBytes.ConsensusBytes | consensus/message.pb.go:317-417 | the same for the 14 named fields of a consensus message, under 0A to 72 |
| WireBytes.EntryIsPrinted | dblookupext/resultsHashesByTxHash.pb.go:263-283 | an entry is its epoch under 08 and then every hash, empty ones too, under 12 in the order of the list |
| WireBytes.ResultsBytes | dblookupext/resultsHashesByTxHash.pb.go:300-327 | a result is its receipt hash under 0A and then the bytes of every entry behind their length under 12, in order |
| WireBytes.WrongTypeExample | dblookupext/epochByHash.pb.go:237-239 | the two bytes 0D 05 are refused as an epoch: wrong wire type 5 for field 1 |
| Skipping.SkipField | consensus/message.pb.go:1029-1106 | the depth-counter loop on wrapping `int` indices terminates on every input and computes the recursive definition of skipping, errors included |
| FieldGrammar.SkippedIsField | dblookupext/resultsHashesByTxHash.pb.go:643-720 | whatever the loop consumes within the input is the spelling of one well-nested field, which the lemma constructs |
| FieldGrammar.FieldIsSkipped | dblookupext/resultsHashesByTxHash.pb.go:643-720 | a well-nested field standing anywhere takes the loop exactly to its end, with as many groups open as before |
| FieldGrammar.SkipRecognizesFields | consensus/message.pb.go:1029-1106 | the loop consumes n bytes within the input if and only if these n bytes are one field of the grammar, group field numbers ignored |
| FieldGrammar.SkipIgnoresSuffix | dblookupext/miniblockMetadata.pb.go:865-942 | what is skipped does not depend on what follows it |
| Printer.WroteBefore | dblookupext/resultsHashesByTxHash.pb.go:263-283 | two writes, the second ending where the first begins, amount to one write of the joined bytes with every other byte unchanged |
| Printer.Size | dblookupext/resultsHashesByTxHash.pb.go:340-375 | the sum of the field sizes is the exact length of the encoding, nested messages included |
| Printer.MarshalField | dblookupext/miniblockMetadata.pb.go:312-388 | the block of one field puts that field's encoding directly in front of the index and nothing else; unset fields write nothing |
| Printer.MarshalBlobs | dblookupext/resultsHashesByTxHash.pb.go:268-276 | printing a repeated bytes field last element first leaves its elements in ascending order, empty ones too |
| Printer.MarshalMsgs | dblookupext/resultsHashesByTxHash.pb.go:305-318 | printing nested messages in place, last first, leaves them in order, each behind its tag and length |
| Printer.MarshalMsg | dblookupext/resultsHashesByTxHash.pb.go:307-317 | the size a nested printer returns is the length of what it wrote, so the prefix is right |
| Printer.MarshalToSizedBuffer | consensus/message.pb.go:317-417 | filled from the last field to the first, the bytes before the end are the ascending encoding, its length is returned, every other byte is untouched |
| Printer.Marshal | dblookupext/resultsHashesByTxHash.pb.go:285-293 | a buffer of `Size()` bytes is filled down to offset 0 and holds exactly the encoding |
| Parser.Message.DecodeSpan | consensus/message.pb.go:563-587 | a length prefix yields the payload's bounds inside the input; a negative length, a wrapped end and an end past the input give their own errors |
| Parser.Message.DecodeNumber | consensus/message.pb.go:763-800 | a number field takes the low bits of its varint as its type, and keeps the groups read so far when the varint is broken |
| Parser.Message.UnmarshalField | dblookupext/miniblockMetadata.pb.go:518-840 | the block of a known field changes that field only: wrong wire types are refused, numbers and bytes overwritten, elements appended |
| Parser.Message.StorePayload | dblookupext/resultsHashesByTxHash.pb.go:614-618 | a nested element is parsed from its payload alone, and stays in the list as far as it got when it fails |
| Parser.Message.UnmarshalUnknown | consensus/message.pb.go:1005-1020 | an unknown field is skipped whole, from its tag; a wrapped end and an end past the input give their own errors |
| Parser.Message.UnmarshalRecord | consensus/message.pb.go:534-558 | one turn: the tag is read, group ends and field numbers that are not positive are refused, the field is stored or skipped, and the index strictly advances |
| Parser.Message.Unmarshal | consensus/message.pb.go:530-1028 | terminates on every byte sequence with every index in range, and leaves the message and returns the error that parsing record by record defines; success means all of it was read |
| Merging.RecordIgnoresSuffix | consensus/message.pb.go:534-1020 | a complete record is parsed the same whatever follows it |
| Merging.ParseConcat | dblookupext/resultsHashesByTxHash.pb.go:522-642 | when a is accepted, parsing a + b is parsing b into the result of a; a fault in b is the same fault, later by the length of a |
| Merging.OverrunIsPastEnd | consensus/message.pb.go:581-587 | a record overruns the input exactly when the end it asks for, read off its tag and length alone, lies past it, whatever the message |
| Merging.RecordStandsAlone | consensus/message.pb.go:534-1020 | an accepted record is accepted in the same way when nothing follows it |
| Merging.ConcatenationIsMerge | dblookupext/resultsHashesByTxHash.pb.go:418-642 | when a is accepted, a + b leaves the message that b leaves when merged into the result of a and is accepted exactly when b is; the errors are the same if and only if no record of b, behind an accepted prefix, asks for an end that is an int in b but not behind a |
| Merging.UnknownFieldsChangeNothing | dblookupext/resultsHashesByTxHash.pb.go:619-634 | a well-nested unknown field between any accepted input and any rest changes neither the message nor acceptance |
| Acceptance.RecordIff | consensus/message.pb.go:534-1020 | one turn consumes exactly n bytes if and only if they are one record: a positive field number, and either a known field with its kind's wire type and a whole payload (accepted itself when it is a nested message) or a well-nested field of another number |
| Acceptance.AcceptedIff | consensus/message.pb.go:530-1028 | an input is accepted, into whatever message, if and only if it is a sequence of such records |
| Acceptance.RecordSets | dblookupext/resultsHashesByTxHash.pb.go:446-634 | an accepted record changes its own field only: a number takes the low bits of the varint, bytes the payload, a list gets the payload or the unmarshalled nested message at its end; an unknown field changes nothing |
| Acceptance.RefusedTag | consensus/message.pb.go:535-562 | behind an accepted input, ten continuing bytes, an end within the tag, the end of a group, a field number that is not positive and a wrong wire type are refused with their own errors, the message left as it was |
| Acceptance.WrongWireTypeIsRefused | dblookupext/miniblockMetadata.pb.go:519-522 | for every schema, accepted prefix, known field and wire type other than its own (and other than 4), the tag is refused as of a wrong wire type, whatever follows |
| Acceptance.RefusedNumber | consensus/message.pb.go:763-781 | a broken number is refused as overflow or end of input and leaves the groups read in the field |
| Acceptance.RefusedLength | consensus/message.pb.go:563-587 | a broken or negative length and a payload past the end, before and after the end index wraps, are refused with their own errors, the message left as it was |
| Acceptance.RefusedElement | dblookupext/resultsHashesByTxHash.pb.go:614-618 | a nested message that is refused stays in the list as far as it got, and its error is the error |
| Acceptance.RefusedUnknown | consensus/message.pb.go:1005-1020 | an unknown field is refused as the skipping loop refuses it, and when it is not all there |
| Acceptance.SkipRefusals | consensus/message.pb.go:1029-1106 | the skipping loop refuses a broken tag, a wire type of 6 or 7, the end of a group that is not open, a broken or negative length and the end of the input in a group, each with its own error |
| RoundTrip.NumberSurvives | dblookupext/miniblockMetadata.pb.go:312-316 | sign extension on writing and truncation on reading cancel for every number of every field type |
| RoundTrip.EncodedMessageIsMerged | consensus/message.pb.go:317-417 | parsing an encoding over any message gives their merge: set scalars and bytes win, unset ones leave what was there, lists grow |
| RoundTrip.MarshalThenUnmarshal | consensus/message.pb.go:530-1028 | for every schema of up to 15 fields and every message of it, unmarshalling its encoding into an empty message gives it back |
| RoundTrip.MarshalIsInjective | consensus/message.pb.go:317-417 | different messages have different encodings |
| RoundTrip.JoinedEncodingsMerge | dblookupext/resultsHashesByTxHash.pb.go:522-642 | two encodings laid end to end are accepted as the merge of their messages, last one wins |
| Reencoding.ReencodingNeverGrowsPlain | dblookupext/resultsHashesByTxHash.pb.go:340-375 | without int32 fields at any depth, the encoding of what was accepted is no longer than the input |
| Reencoding.ReencodingNeverGrows | dblookupext/miniblockMetadata.pb.go:401-452 | with int32 fields at the top level, longer by at most 5 bytes for each of them that was read as negative |
| Reencoding.ReencodingIsStable | consensus/message.pb.go:530-1028 | re-encoding any accepted input and reading that gives the same message again |
| Schemas.EpochRoundTrip | dblookupext/epochByHash.pb.go:147-278 | every epoch survives marshal and unmarshal |
| Schemas.MetadataRoundTrip | dblookupext/miniblockMetadata.pb.go:307-864 | every metadata record survives marshal and unmarshal field by field, negative types included |
| Schemas.MetadataReencoding | dblookupext/miniblockMetadata.pb.go:312-316 | re-encoding accepted metadata grows by at most 5 bytes when the type was read as negative, and not at all otherwise |
| Schemas.NegativeTypeGrowsByFive | dblookupext/miniblockMetadata.pb.go:822-840 | every record with a negative type is also accepted in a form, its type in 5 varint bytes, that is exactly 5 bytes shorter than its encoding |
| Schemas.GrowsExactlyWhenNegative | dblookupext/miniblockMetadata.pb.go:312-316 | a record has an accepted form shorter than its own encoding if and only if its type is negative |
| Schemas.ConsensusRoundTrip | consensus/message.pb.go:763-800 | every consensus message survives, for every int64 message type and round index |
| Schemas.ConsensusReencoding | consensus/message.pb.go:430-491 | re-encoding an accepted consensus message never grows |
| Schemas.ResultsRoundTrip | dblookupext/resultsHashesByTxHash.pb.go:418-642 | every nested result survives: empty hashes, zero epochs and empty elements are kept, in order |
| Schemas.ResultsReencoding | dblookupext/resultsHashesByTxHash.pb.go:340-375 | re-encoding accepted results never grows |
| Schemas.ConcatenationCanChangeTheError | dblookupext/resultsHashesByTxHash.pb.go:571-580 | twelve bytes given to the unmarshaller of `ResultsHashesByTxHash` for which the error of the concatenation is not the error of its second part |
| History.DedupKeyIsInjective | dblookupext/historyRepository.go:248-254 | no two (epoch, hash) pairs share a key, so that the same miniblock in the next epoch is not taken for a duplicate |
| History.DedupKeyExample | dblookupext/historyRepository.go:252-254 | the key of hash AB 01 in epoch 120 is 120_ab01 |
| History.RecordMiniblockAgrees | dblookupext/historyRepository.go:204-223 | whatever fails, every record lies under its own epoch and hash |
| History.OneMoreKey | dblookupext/historyRepository.go:433-469 | one turn of the consuming loop after any set of keys is consuming that set with the key added |
| History.ConsumingIgnoresOrder | dblookupext/historyRepository.go:433-469 | the loop gives the same state for every order of the keys: each waiting notification with a readable record is applied to it and leaves |
| History.ConsumingIsExact | dblookupext/historyRepository.go:452-467 | the keys left are exactly those without a readable record or whose write failed, with what they had, and a second pass changes nothing |
| HistoryRuns.RecordMiniblockOnView | dblookupext/historyRepository.go:194-237 | when writes succeed, recording touches the share of a key that is not evicted only when it is its miniblock, recorded in its epoch, and then only when the key is not cached |
| HistoryRuns.ConsumePlaceOnView | dblookupext/historyRepository.go:433-469 | when writes succeed and the index names no other epoch for the miniblock, a pass changes the record of a key exactly by its own waiting notification |
| HistoryRuns.PendingMapsAreSeparate | dblookupext/historyRepository.go:337-389 | if a hash fixes sender, receiver and type, then in every reachable state no hash waits for both sides and for one, and everything waiting is a non-peer miniblock from or to the own shard |
| HistoryRuns.ConsumeFollows | dblookupext/historyRepository.go:393-431 | when writes succeed, consuming keeps the record in step with the log and leaves nothing waiting for a recorded miniblock |
| HistoryRuns.RunRefinesLog | dblookupext/historyRepository.go:313-469 | for a miniblock recorded in one epoch, its key not evicted, its hash no header's and fixing its shape, with writes that succeed: after every `OnNotarizedBlocks` of any run it is found as first recorded, with the coordinates of the last matching notification on each side, whichever came first; unrecorded, it has no record while its last notifications wait |
| HistoryFields.RecordedIsFound | dblookupext/historyRepository.go:204-234 | a miniblock recorded with its key uncached is found by its hash and by each transaction the index accepts, with its sender, receiver, type and hash, the header's round, nonce, hash and epoch, and no coordinates; its key is cached, and everything else is found as before |
| HistoryFields.UnrecordedIsAsBefore | dblookupext/historyRepository.go:200-223 | a cached key or an epoch that cannot be saved changes nothing, a record that cannot be put leaves only its epoch |
| HistoryFields.BlockIsFound | dblookupext/historyRepository.go:150-169 | when writes succeed, an uncached hash is found after a block, described by its header and a miniblock of it, if and only if an intra-shard miniblock or a non-peer miniblock of the body has it; otherwise it is found as before |
| HistoryFields.BlockEpochIsFound | dblookupext/historyRepository.go:143-148 | the block's epoch is found by the header hash, whatever writes of miniblocks fail |
| HistoryFields.CommittedIsFound | dblookupext/historyRepository.go:150-169 | after every run in which recordings' writes succeed and header hashes are no miniblock hashes, each intra-shard miniblock and each non-peer miniblock of the last block is found, cached before or not |
| HistoryFields.NotesAreNotarizings | dblookupext/historyRepository.go:313-389 | the last notification for a side of a miniblock is that of the last metablock that notarizes it there: by a non-peer miniblock from or to the own shard, of its own or, but for the genesis metablock, of a shard block in it, that stays in its shard, goes to the metachain, or is of the side's shard |
| HistoryFields.ConsumedSides | dblookupext/historyRepository.go:409-424 | when writes succeed, consuming puts on each side of a readable record the nonce and hash that wait for both sides, else those that wait for that side, else leaves it; no other field changes and nothing waits any more |
| HistoryFields.MetablockNotarizes | dblookupext/historyRepository.go:313-389 | one metablock, for a recorded miniblock that waits for nothing: exactly the sides where the metablock notarizes it get its nonce and hash, and no other field of the record changes |
| HistoryFields.ShardBlockNotarizes | dblookupext/historyRepository.go:347-385 | in a shard block of a metablock a miniblock is notarized at the source exactly if the shard is its sender's, at the destination exactly if it is its receiver's, and at both if it stays in its shard or goes to the metachain |
| HistoryFields.OwnMiniblockNotarizes | dblookupext/historyRepository.go:321-323 | a miniblock of the metablock itself is notarized at the source exactly if it comes from the metachain, and at both if it goes there |
| HistoryFields.RunShowsBlocks | dblookupext/historyRepository.go:194-469 | under the conditions of `RunRefinesLog`, after every `OnNotarizedBlocks`: a miniblock is found if and only if a block of the run brought it, its record is about it and the header that brought it first, and each side has the nonce and hash of the last metablock of the run that notarizes it there, or none |
| HistoryEvictions.RunRefinesTrace | dblookupext/historyRepository.go:194-469 | with nothing asked of epochs and cache, only that writes succeed and that the hash is no header's and fixes the shape: after every `OnNotarizedBlocks` of any run, lookups give the miniblock as it was last recorded with its key uncached, with the last notification of each side unless that was consumed before such a recording |
| HistoryEvictions.SettledIsKept | dblookupext/historyRepository.go:393-431 | at any moment of such a run the record with all that waits for it is the last recording with the notifications that are not lost |
| HistoryEvictions.RecordIsExpectedUnlessLost | dblookupext/historyRepository.go:200-225 | after any such run, whatever it ends with, the record with all that waits for it is the last recording with the log's last notifications if and only if no recording found its key uncached after the last notification of a side was consumed (a notification equal to a fresh record's coordinates can be lost unseen); after an `OnNotarizedBlocks` lookups give that record |
| HistoryEvictions.ShowsUnlessLost | dblookupext/historyRepository.go:433-469 | what waits is the last notification of the side; when nothing waits, what the record shows is the last one, unless it is lost |
| HistoryEvictions.EvictionLosesCoordinates | dblookupext/historyRepository.go:200-225 | runs from the initial state, for any miniblock of the own shard: recorded, evicted by another one's put, notarized, found with its coordinates, recorded again, and found without them with nothing waiting |
| HistoryIndexes.RunKeepsIndexes | dblookupext/historyRepository.go:194-237 | after any run in which recordings' epoch and record writes succeed and header hashes are no miniblock hashes, each stored record is reachable by its hash, and the cache and the transaction index name stored records only; other writes may fail |
| HistoryIndexes.IndexesAgreeInEveryRun | dblookupext/historyRepository.go:262-303 | after any such run records have the epoch and hash of their key, and the lookup of an indexed transaction succeeds, with the record of its miniblock in the indexed epoch |
| HistoryIndexes.ForkAcrossEpochs | dblookupext/historyRepository.go:248-254 | recorded in one epoch, then in another: lookups give the newer record, every other record is unchanged, and recording under a cached key changes nothing |
| HistoryRepositories.EpochByHashIndex.GetEpochByHash | dblookupext/hashToEpochIndex.go:22-35 | the bytes stored for a hash are read back as the epoch saved for it; otherwise not found |
| HistoryRepositories.EpochByHashIndex.SaveEpochByHash | dblookupext/hashToEpochIndex.go:37-48 | an accepted write maps the hash to the epoch and nothing else, a refused one changes nothing |
| HistoryRepositories.MiniblocksMetadataStorer.Put | dblookupext/historyRepository.go:271-283 | the record goes under its own epoch, as bytes that read back as that record |
| HistoryRepositories.HistoryRepository.GetMiniblockMetadataByMiniblockHash | dblookupext/historyRepository.go:285-303 | the record in the epoch the index has, or not found; stored bytes never fail to unmarshal |
| HistoryRepositories.HistoryRepository.GetMiniblockMetadataByTxHash | dblookupext/historyRepository.go:261-269 | the record of the miniblock the transaction is indexed under, or not found |
| HistoryRepositories.HistoryRepository.RecordMiniblock | dblookupext/historyRepository.go:194-237 | on stored bytes, for every failing write, the state becomes what recording a miniblock means |
| HistoryRepositories.HistoryRepository.RecordMiniblocks | dblookupext/historyRepository.go:143-169 | the header's epoch first, then every non-peer miniblock of the body and every intra-shard one, failures of single miniblocks passed over |
| HistoryRepositories.HistoryRepository.RecordBlock | dblookupext/historyRepository.go:126-192 | a body of another type changes nothing, a failing epoch write ends it before anything else; otherwise the miniblocks are recorded and the batch of results saved, and unless the supplies fail the hash is put by round; the error says where it ended |
| HistoryRepositories.HistoryRepository.OnNotarizedMiniblock | dblookupext/historyRepository.go:347-389 | a notification replaces the one waiting in the one map that the miniblock belongs to, or is ignored |
| HistoryRepositories.HistoryRepository.OnNotarizedBlocks | dblookupext/historyRepository.go:312-335 | all notifications of the metablocks are queued, in order, and the maps consumed; other headers are passed over |
| HistoryRepositories.HistoryRepository.ConsumePendingNotifications | dblookupext/historyRepository.go:393-431 | the source, destination and both maps are consumed one after the other; the early return loses nothing |
| HistoryRepositories.HistoryRepository.ConsumePendingNotificationsAt | dblookupext/historyRepository.go:433-469 | reading, patching and rewriting the bytes in any order of keys amounts to consuming the whole map |
| Interleaving.StepsInARowRecord | dblookupext/historyRepository.go:194-237 | the recorder's single steps with nothing in between, transaction index included, are recording the miniblock, whatever writes fail |
| Interleaving.StepsInARowConsume | dblookupext/historyRepository.go:433-469 | the consumer's single steps with nothing in between are one turn of the consuming loop, wherever they stop and whatever writes fail |
| Interleaving.StepKeepsInv | dblookupext/historyRepository.go:194-237 | every calm step of recorder, consumer and notifier, failing writes included, keeps the invariant: what the recorder and the consumer hold is in step with the stores, and record and waiting notifications with the log |
| Interleaving.FreshNeverOverwrites | dblookupext/historyRepository.go:200-225 | in every interleaving that records the miniblock in one epoch, evicts no key of it and brings no newer notification for the one being consumed, a fresh record is only put where there is none, so no patched record is overwritten |
| Interleaving.NoNotificationIsLost | dblookupext/historyRepository.go:391-469 | in every such interleaving a recorded miniblock's record together with what waits for it shows the last matching notification on each side; before the recording the last ones wait |
| Interleaving.TxLookupSucceeds | dblookupext/historyRepository.go:227-234 | in every such interleaving, whatever writes fail, the lookup of a transaction indexed under the miniblock finds the miniblock's record |
| InterleavingLosses.StepKeepsInv | dblookupext/historyRepository.go:194-237 | with evictions, several epochs and newer notifications allowed, and no write of the miniblock's fresh record failing: since the consumer read the epoch, either it is still the one, or lookups will give a fresh record |
| InterleavingLosses.RemovalLosesNothingIff | dblookupext/historyRepository.go:452-467 | in every reachable system, if no write of the fresh record failed and the hash is no header's and fixes the shape, removing a consumed notification loses nothing if and only if what waits is still the one taken and the record it was put into is still the one lookups give (else only a blank notification can go) |
| InterleavingLosses.RunWaitsLatest | dblookupext/historyRepository.go:371-385 | in every reachable system what waits during a consume is the last notification that came since the one taken |
| InterleavingLosses.RunHolds | dblookupext/historyRepository.go:194-225 | while no key of the miniblock is evicted, a record is put once in an epoch, the consumer's record is stored as it was read, and the epoch index has moved exactly if an epoch was saved since it was read |
| InterleavingLosses.ConsumeLosesNothingIff | dblookupext/historyRepository.go:433-469 | the same told from the steps, while no key of the miniblock is evicted: the consumer's removal loses nothing if and only if the last notification since the one taken equals it and no epoch was saved for the miniblock since the epoch was read (else only a blank notification can go); what a recording does after the removal is not judged here |
| InterleavingLosses.LostAcrossEpochs | dblookupext/historyRepository.go:285-303 | runs from the initial system: a recording in another epoch between the consumer's two reads, after which the notification is gone and lookups give a record without it |
| InterleavingLosses.LostWhenRenotified | dblookupext/historyRepository.go:452-467 | runs from the initial system: a notification arriving between the consumer's read and its write is removed, and the record shows the older one |
| InterleavingOutcomes.OtherStepsKeepProspect | dblookupext/historyRepository.go:194-469 | no step but a notification, a removal, a saved epoch and a put over a newer record changes the record that lookups will give once all that waits for it is consumed |
| InterleavingOutcomes.SavedEpochKeepsSideIff | dblookupext/historyRepository.go:204-207 | in any system saving another epoch for a miniblock keeps the coordinates of a side if and only if a notification waits for that side or the record shows none |
| InterleavingOutcomes.RunLeads | dblookupext/historyRepository.go:194-469 | after any interleaving, whatever is evicted, the record that lookups will give has on each side the coordinates that the deciding steps lead to |
| InterleavingOutcomes.LostIsAnotherOutcome | dblookupext/historyRepository.go:433-469 | those coordinates are not the side's last notification if and only if the last step that decided on the side was a losing one |
| InterleavingOutcomes.SettledIsExpectedIff | dblookupext/historyRepository.go:194-469 | after any interleaving with evictions, several epochs and newer notifications, in which no write of the miniblock's fresh record fails and its hash is no header's and fixes the shape: the record that lookups will give is its recording with the log's last notifications if and only if neither side is lost; before any recording the last notifications wait |
| InterleavingOutcomes.LostToLaterRecording | dblookupext/historyRepository.go:200-207 | runs from the initial system: the recorder finds the new epoch's key uncached before the consume and saves the epoch after it; the removal loses nothing, and still the notification is gone at the end and lookups give a record without it |
| EventsIndex.EventsHashesByTxHash.GroupSmartContractResults | dblookupext/eventsHashesByTxHashIndex.go:73-101 | in any order of the pool, each transaction with results gets one entry of the epoch that lists each of its results once, and no other transaction gets one |
| EventsIndex.EventsHashesByTxHash.GroupTransactionOutcomes | dblookupext/eventsHashesByTxHashIndex.go:50-71 | a receipt takes the place of what the batch has for its transaction; other transactions keep their entry |
| EventsIndex.EventsHashesByTxHash.MergeRecordsFromStorage | dblookupext/eventsHashesByTxHashIndex.go:103-122 | the stored list is put in front of the new entries, for exactly the transactions of the batch |
| EventsIndex.EventsHashesByTxHash.SaveResultsHashes | dblookupext/eventsHashesByTxHashIndex.go:28-48 | on stored bytes, every transaction of the batch gets its stored list with the batch's entry behind it, unless its own write fails; no other transaction changes |
| EventsIndex.LogIsConcatenation | dblookupext/eventsHashesByTxHashIndex.go:103-122 | after any run of saves the stored list of a transaction is the concatenation of what each save added for it |
| EventsIndex.LogIsAppendOnly | dblookupext/eventsHashesByTxHashIndex.go:28-122 | the list stored at any time is a prefix of the list stored at any later time |
| EventsIndex.SaveAddsOneEntry | dblookupext/eventsHashesByTxHashIndex.go:73-101 | without a receipt an accepted save adds one entry of the batch's epoch with each result of the transaction exactly once; with a receipt it adds nothing |
| EventsIndex.ResultIsLoggedUnlessReceipt | dblookupext/eventsHashesByTxHashIndex.go:57-68 | a result of the batch reaches the log if and only if its transaction has no receipt in the same batch |
| EventsIndex.ReceiptHashIsTheBatchs | dblookupext/eventsHashesByTxHashIndex.go:65-67 | for a transaction of the batch whose write succeeds, the receipt hash stored is that of one of its receipts in the batch, empty when it has none |
| EventsIndex.ReceiptHashIsKept | dblookupext/eventsHashesByTxHashIndex.go:103-122 | a stored receipt hash is the same after a save if and only if the batch has nothing for the transaction, its write fails, or the batch brings the same hash again |
| EventsIndex.ReceiptHashIsKeptByPools | dblookupext/eventsHashesByTxHashIndex.go:50-71 | the same as a condition on the pools, when the transaction has at most one receipt in the batch |
| EventsIndex.ReceiptDropsResults | dblookupext/eventsHashesByTxHashIndex.go:57-68 | from the empty store, a batch with a result and a receipt for one transaction stores the receipt hash and no entry |
| EventsIndex.LaterBatchDropsReceipt | dblookupext/eventsHashesByTxHashIndex.go:103-122 | from the empty store, a batch with a receipt stores its hash, and a later batch with a result only leaves the entry and no receipt hash |
| HealthRecords.InsertionPlace | health/records.go:70-80 | the place is the first item the record is more important than, or the end: it comes after its equals |
| HealthRecords.Records.FindInsertionPlace | health/records.go:70-80 | the scan from the front finds that place |
| HealthRecords.Records.MakeRoomForRecord | health/records.go:42-68 | a full list refuses a record less important than its last item, and otherwise gives up that last item and its file |
| HealthRecords.Records.AddRecord | health/records.go:21-40 | the list and the files after a call, for every outcome of the file operations |
| HealthRecords.InsertKeepsOrder | health/records.go:28-34 | inserting keeps the list sorted, most important first |
| HealthRecords.AddKeepsTop | health/records.go:21-68 | one call keeps the list the most important of what was seen, naming what it drops |
| HealthRecords.AddDecidesByImportance | health/records.go:25-52 | a full list takes a record if and only if its last item is not more important, so a tie goes to the newer; then exactly that item and its file go; otherwise list and files are unchanged; a list that is not full takes every record |
| HealthRecords.AddPlacesBehindEquals | health/records.go:70-80 | a record that is taken stands behind all that are as important and before all that are less, and the others keep their order |
| HealthRecords.HeldInArrivalOrder | health/records.go:21-80 | after any calls the list is in the order of importance and, among equals, of arrival; so the item that goes next is the latest of the least important |
| HealthRecords.TieGoesToTheNewer | health/memoryUsageRecord.go:72-79 | of two equally important records a list of one holds the second, and only its file is left |
| HealthRecords.KeepsTheMostImportant | health/memoryUsageRecord.go:72-79 | after any calls the list is sorted, holds min(calls, capacity) records, and together with records no more important than any held it is, as a multiset, all that was seen |
| HealthRecords.FilesAreThoseHeld | health/records.go:36-67 | with distinct names and file operations that succeed, the files on disk are exactly those of the records held |

## Left out

- The four generated files are unrolled copies of one template; the model has the template once, with a loop over the schema where each file has one block a field.
- Nil and empty byte slices are not told apart (the generated `Equal` does not either), and list elements are never nil.
- Go `switch` and `for` blocks become small methods; the shared index is passed in and out of them.
- Sizes: the printers are modelled for encodings of at most 2^63 - 1 bytes, which every message in memory has; the flat records have slices of at most 2^48 bytes, the address space.
- The generated `Equal`, `MarshalTo`, getters, `String`, `GoString`, descriptors and registration glue.
- The nested `Unmarshal` appends an element first and fills it through a pointer; the model fills the element and then appends it, with the same list at every return.
- The marshalizer is taken to be the generated codec on a fresh record; the factory that chooses one is not part of this model.
- `MetachainShardId` and `PeerBlock` are constants of mx-chain-core-go, which is not part of this model; only that the first marks the metachain and the second a peer miniblock is used.
- The hash of a miniblock is given with it; hashing and its failure are not modelled.
- Storers are maps whose reads fail only for missing keys, and whose writes may fail as each call's environment says; the eviction policy of the cache is any loss of keys at a put.
- HistoryRepositories.HistoryRepository.RecordBlock: what the ESDT supplies handler does with the logs is not modelled, only whether it fails.
- `RevertBlock`, `GetEpochByHash` on the repository, the ESDT supplies handler and logging.
- The events storer is one map: its partition by epoch, seen only by `getEventsHashesByTxHash`, is not modelled.
- Interleaving: one recorder and one consumer at a time, as the two mutexes ensure; a recorder that dies between its steps is not modelled.
- InterleavingLosses.RemovalLosesNothingIff: a failing write of the miniblock's fresh record after its epoch was saved is left out here and in `InterleavingOutcomes` (`Interleaving` has it), because lookups then find nothing until the next recording.
- EventsIndex.EventsHashesByTxHash.SaveResultsHashes: a write of a record longer than any slice counts as refused, where Go would have run out of memory.
- HealthRecords.Records.AddRecord: the capacity is at least 1; with capacity 0 the code dereferences the last element of an empty list.
- HealthRecords.Records.MakeRoomForRecord: records of one type only; comparing with another type, which never wins, is not modelled.
- Saving and deleting a profile are a flag each; writing the file, its name and the clock are not modelled.
- The codecs of the heartbeat and of data requests, which repeat the same template with fewer features.
