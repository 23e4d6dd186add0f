/** The bytes of each message type, tag by tag, in ascending order of the fields. */
module WireBytes {
  import opened Words
  import opened Varints
  import opened Skipping
  import opened Wire
  import opened Schemas
  import opened Acceptance

  // ---------- varints, byte by byte ----------

  /** `v >> 7*i`. */
  function ShiftedRight(v: nat, i: nat): nat {
    if i == 0 then v else ShiftedRight(v / 128, i - 1)
  }

  /** The i-th byte of a varint has the i-th 7-bit group, and its top bit is set exactly when more follow. */
  lemma {:induction false} VarintByte(v: nat, i: nat)
    requires i < |Varint(v)|
    ensures Varint(v)[i] == ShiftedRight(v, i) % 128 + if i + 1 < |Varint(v)| then 128 else 0
    ensures i + 1 == |Varint(v)| ==> ShiftedRight(v, i) < 128
  {
    if v >= 128 && i > 0 {
      VarintByte(v / 128, i - 1);
    }
  }

  /** The example of the Protocol Buffers encoding guide: 150 is 96 01. */
  lemma VarintExample()
    ensures Varint(150) == [0x96, 0x01]
  {
    assert Varint(1) == [0x01];
  }

  // ---------- fields ----------

  /** A number is written as its 64-bit two's complement, and zero is not written. */
  function NumberField(tag: byte, n: int): bytes
    requires -0x8000_0000_0000_0000 <= n < 0x1_0000_0000_0000_0000
  {
    if n == 0 then [] else [tag] + Varint(if n < 0 then 0x1_0000_0000_0000_0000 + n else n)
  }

  function Element(tag: byte, b: bytes): bytes {
    [tag] + Varint(|b|) + b
  }

  /** Empty bytes are not written. */
  function BytesField(tag: byte, b: bytes): bytes {
    if b == [] then [] else Element(tag, b)
  }

  function Joined(parts: seq<bytes>): bytes {
    if parts == [] then [] else parts[0] + Joined(parts[1..])
  }

  lemma {:induction false} NumberIsPrinted(kind: Kind, num: nat, n: int)
    requires kind.IsNumber() && 1 <= num <= 15 && InRange(kind, n)
    ensures EncodeValue(kind, num, Num(n)) == NumberField(8 * num, n)
  {
  }

  lemma {:induction false} BytesArePrinted(num: nat, b: bytes)
    requires 1 <= num <= 15
    ensures EncodeValue(Bytes, num, Blob(b)) == BytesField(8 * num + 2, b)
  {
  }

  /** What the fields are printed as, in the order of their numbers. */
  lemma {:induction false} FieldsAreJoined(schema: Schema, m: Msg, parts: seq<bytes>, i: nat)
    requires OneByteTags(schema) && Fits(schema, m) && |parts| == |schema| && i <= |schema|
    requires forall k :: 0 <= k < |schema| ==> parts[k] == EncodeValue(schema[k], k + 1, m.fields[k])
    ensures EncodeFrom(schema, m, i) == Joined(parts[i..])
    decreases |schema| - i
  {
    if i < |schema| {
      FieldsAreJoined(schema, m, parts, i + 1);
      assert parts[i..][1..] == parts[i + 1..];
    }
  }

  /** A number or bytes field under its tag. */
  function Part(kind: Kind, num: nat, v: Value): bytes
    requires num <= 15 && FitsValue(kind, v) && kind != RepBytes && !kind.RepMsg?
  {
    if kind == Bytes then BytesField(8 * num + 2, v.b) else NumberField(8 * num, v.n)
  }

  lemma {:induction false} PartIsPrinted(kind: Kind, num: nat, v: Value)
    requires 1 <= num <= 15 && FitsValue(kind, v) && kind != RepBytes && !kind.RepMsg?
    ensures Part(kind, num, v) == EncodeValue(kind, num, v)
  {
    if kind == Bytes {
      BytesArePrinted(num, v.b);
    } else {
      NumberIsPrinted(kind, num, v.n);
    }
  }

  predicate Flat(schema: Schema) {
    |schema| <= 15 && forall k :: 0 <= k < |schema| ==> schema[k] != RepBytes && !schema[k].RepMsg?
  }

  lemma {:induction false} FlatIsJoined(schema: Schema, m: Msg, parts: seq<bytes>)
    requires Flat(schema) && OneByteTags(schema) && Fits(schema, m) && |parts| == |schema|
    requires forall k :: 0 <= k < |schema| ==> parts[k] == Part(schema[k], k + 1, m.fields[k])
    ensures Encode(schema, m) == Joined(parts)
  {
    forall k | 0 <= k < |schema|
      ensures parts[k] == EncodeValue(schema[k], k + 1, m.fields[k])
    {
      PartIsPrinted(schema[k], k + 1, m.fields[k]);
    }
    FieldsAreJoined(schema, m, parts, 0);
    assert parts[0..] == parts;
  }

  // ---------- the message types ----------

  lemma {:induction false} EpochBytes(epoch: uint32)
    ensures MarshalEpoch(epoch) == NumberField(0x08, epoch)
  {
    var (m, parts) := (Msg([Num(epoch)]), [NumberField(0x08, epoch)]);
    NumberIsPrinted(U32, 1, epoch);
    FieldsAreJoined(EPOCH, m, parts, 0);
    assert parts[0..] == parts && parts[1..] == [];
  }

  function MetadataParts(md: MiniblockMetadata): seq<bytes> {
    [NumberField(0x08, md.sourceShardID),
     NumberField(0x10, md.destinationShardID),
     NumberField(0x18, md.round),
     NumberField(0x20, md.headerNonce),
     BytesField(0x2A, md.headerHash),
     BytesField(0x32, md.miniblockHash),
     BytesField(0x3A, md.deprecatedStatus),
     NumberField(0x40, md.epoch),
     NumberField(0x48, md.notarizedAtSourceInMetaNonce),
     NumberField(0x50, md.notarizedAtDestinationInMetaNonce),
     BytesField(0x5A, md.notarizedAtSourceInMetaHash),
     BytesField(0x62, md.notarizedAtDestinationInMetaHash),
     NumberField(0x68, md.blockType)]
  }

  lemma {:induction false} MetadataBytes(md: MiniblockMetadata)
    ensures MarshalMetadata(md) == Joined(MetadataParts(md))
  {
    MetadataKinds();
    MetadataTags(md);
    FlatIsJoined(METADATA, md.ToMsg(), MetadataParts(md));
  }

  lemma {:induction false} MetadataTags(md: MiniblockMetadata)
    ensures Flat(METADATA)
    ensures forall k :: 0 <= k < 13 ==> MetadataParts(md)[k] == Part(METADATA[k], k + 1, md.ToMsg().fields[k])
  {
    MetadataLowTags(md);
    MetadataMiddleTags(md);
    MetadataHighTags(md);
  }

  lemma {:induction false} MetadataLowTags(md: MiniblockMetadata)
    ensures forall k :: 0 <= k < 4 ==> MetadataParts(md)[k] == Part(METADATA[k], k + 1, md.ToMsg().fields[k])
  {
  }

  lemma {:induction false} MetadataMiddleTags(md: MiniblockMetadata)
    ensures forall k :: 4 <= k < 8 ==> MetadataParts(md)[k] == Part(METADATA[k], k + 1, md.ToMsg().fields[k])
  {
  }

  lemma {:induction false} MetadataHighTags(md: MiniblockMetadata)
    ensures forall k :: 8 <= k < 13 ==> MetadataParts(md)[k] == Part(METADATA[k], k + 1, md.ToMsg().fields[k])
  {
  }

  function ConsensusParts(c: ConsensusMessage): seq<bytes> {
    [BytesField(0x0A, c.blockHeaderHash),
     BytesField(0x12, c.signatureShare),
     BytesField(0x1A, c.body),
     BytesField(0x22, c.header),
     BytesField(0x2A, c.pubKey),
     BytesField(0x32, c.signature),
     NumberField(0x38, c.msgType),
     NumberField(0x40, c.roundIndex),
     BytesField(0x4A, c.chainID),
     BytesField(0x52, c.pubKeysBitmap),
     BytesField(0x5A, c.aggregateSignature),
     BytesField(0x62, c.leaderSignature),
     BytesField(0x6A, c.originatorPid),
     BytesField(0x72, c.invalidSigners)]
  }

  lemma {:induction false} ConsensusBytes(c: ConsensusMessage)
    ensures MarshalConsensus(c) == Joined(ConsensusParts(c))
  {
    ConsensusKinds();
    ConsensusTags(c);
    FlatIsJoined(CONSENSUS, c.ToMsg(), ConsensusParts(c));
  }

  lemma {:induction false} ConsensusTags(c: ConsensusMessage)
    ensures Flat(CONSENSUS)
    ensures forall k :: 0 <= k < 14 ==> ConsensusParts(c)[k] == Part(CONSENSUS[k], k + 1, c.ToMsg().fields[k])
  {
    ConsensusLowTags(c);
    ConsensusMiddleTags(c);
    ConsensusHighTags(c);
  }

  lemma {:induction false} ConsensusLowTags(c: ConsensusMessage)
    ensures forall k :: 0 <= k < 4 ==> ConsensusParts(c)[k] == Part(CONSENSUS[k], k + 1, c.ToMsg().fields[k])
  {
  }

  lemma {:induction false} ConsensusMiddleTags(c: ConsensusMessage)
    ensures forall k :: 4 <= k < 8 ==> ConsensusParts(c)[k] == Part(CONSENSUS[k], k + 1, c.ToMsg().fields[k])
  {
  }

  lemma {:induction false} ConsensusHighTags(c: ConsensusMessage)
    ensures forall k :: 8 <= k < 14 ==> ConsensusParts(c)[k] == Part(CONSENSUS[k], k + 1, c.ToMsg().fields[k])
  {
  }

  /** Every hash is an element, empty ones too, in the order of the list. */
  function HashElements(hashes: seq<bytes>): bytes {
    if hashes == [] then [] else Element(0x12, hashes[0]) + HashElements(hashes[1..])
  }

  function EntryBytes(entry: ScResultsHashesAndEpoch): bytes {
    NumberField(0x08, entry.epoch) + HashElements(entry.scResultsHashes)
  }

  function EntryElements(entries: seq<ScResultsHashesAndEpoch>): bytes {
    if entries == [] then [] else Element(0x12, EntryBytes(entries[0])) + EntryElements(entries[1..])
  }

  lemma {:induction false} HashesArePrinted(hashes: seq<bytes>, j: nat)
    requires j <= |hashes|
    ensures EncodeBlobs(2, hashes, j) == HashElements(hashes[j..])
    decreases |hashes| - j
  {
    if j < |hashes| {
      HashesArePrinted(hashes, j + 1);
      assert hashes[j..][1..] == hashes[j + 1..];
    }
  }

  lemma {:induction false} EntryIsPrinted(entry: ScResultsHashesAndEpoch)
    ensures Encode(SC_RESULTS, entry.ToMsg()) == EntryBytes(entry)
  {
    NumberIsPrinted(U32, 1, entry.epoch);
    HashesArePrinted(entry.scResultsHashes, 0);
    assert entry.scResultsHashes[0..] == entry.scResultsHashes;
    TwoFields(SC_RESULTS, entry.ToMsg(), NumberField(0x08, entry.epoch), HashElements(entry.scResultsHashes));
  }

  lemma {:induction false} TwoJoined(parts: seq<bytes>)
    requires |parts| == 2
    ensures Joined(parts[0..]) == parts[0] + parts[1]
  {
    assert parts[0..] == parts && parts[1..] == [parts[1]] && parts[1..][1..] == [];
    assert Joined(parts[1..]) == parts[1] + [];
  }

  lemma {:induction false} EntriesArePrinted(entries: seq<ScResultsHashesAndEpoch>, ms: seq<Msg>, j: nat)
    requires j <= |entries| == |ms| && forall e :: 0 <= e < |ms| ==> Fits(SC_RESULTS, ms[e]) && ms[e] == entries[e].ToMsg()
    ensures EncodeMsgs(SC_RESULTS, 2, ms, j) == EntryElements(entries[j..])
    decreases |entries| - j
  {
    if j < |entries| {
      EntriesArePrinted(entries, ms, j + 1);
      EntryIsPrinted(entries[j]);
      assert entries[j..][1..] == entries[j + 1..];
    }
  }

  lemma {:induction false} ResultsBytes(r: ResultsHashesByTxHash)
    ensures MarshalResults(r) == BytesField(0x0A, r.receiptsHash) + EntryElements(r.scResults)
  {
    var m := r.ToMsg();
    BytesArePrinted(1, r.receiptsHash);
    EntriesArePrinted(r.scResults, m.fields[1].ms, 0);
    assert r.scResults[0..] == r.scResults;
    TwoFields(RESULTS, m, BytesField(0x0A, r.receiptsHash), EntryElements(r.scResults));
  }

  lemma {:induction false} TwoFields(schema: Schema, m: Msg, first: bytes, second: bytes)
    requires OneByteTags(schema) && |schema| == 2 && Fits(schema, m)
    requires first == EncodeValue(schema[0], 1, m.fields[0]) && second == EncodeValue(schema[1], 2, m.fields[1])
    ensures Encode(schema, m) == first + second
  {
    FieldsAreJoined(schema, m, [first, second], 0);
    TwoJoined([first, second]);
  }

  /** A number under a wire type that is not its own is refused: field 1 of an epoch as four bytes. */
  lemma WrongTypeExample()
    ensures UnmarshalEpoch([0x0D, 0x05]) == Err(WrongWireType(5, 1))
  {
    assert Unmarshal(EPOCH, [], Empty(EPOCH)) == (Empty(EPOCH), None);
    WrongWireTypeIsRefused(EPOCH, [], 1, 5, [0x05], Empty(EPOCH));
    assert [] + ([8 * 1 + 5] + [0x05]) == [0x0D, 0x05];
  }
}
