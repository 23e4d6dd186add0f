/** The four generated message types as schemas, and as the records that the rest of the program handles. */
module Schemas {
  import opened Words
  import opened Varints
  import opened Skipping
  import opened Wire
  import opened Merging
  import opened RoundTrip
  import opened Reencoding

  /** No slice in memory is longer: addresses have 48 bits. */
  const MAX_SLICE: int := 0x1_0000_0000_0000

  predicate Small(b: bytes) {
    |b| <= MAX_SLICE
  }

  type Slice = b: bytes | Small(b)

  // ---------- typed access: a field read as the type its schema gives it ----------

  function Uint32At(m: Msg, i: nat): uint32
    requires i < |m.fields| && FitsValue(U32, m.fields[i])
  {
    m.fields[i].n
  }

  function Uint64At(m: Msg, i: nat): uint64
    requires i < |m.fields| && FitsValue(U64, m.fields[i])
  {
    m.fields[i].n
  }

  function Int32At(m: Msg, i: nat): int32
    requires i < |m.fields| && FitsValue(I32, m.fields[i])
  {
    m.fields[i].n
  }

  function Int64At(m: Msg, i: nat): int64
    requires i < |m.fields| && FitsValue(I64, m.fields[i])
  {
    m.fields[i].n
  }

  function BytesAt(m: Msg, i: nat): bytes
    requires i < |m.fields| && m.fields[i].Blob?
  {
    m.fields[i].b
  }

  /** A message of numbers and slices that fit in memory is far from overflowing `Size()`. */
  lemma {:induction false} FlatSize(schema: Schema, m: Msg, i: nat)
    requires OneByteTags(schema) && Fits(schema, m) && i <= |schema|
    requires forall k :: 0 <= k < |schema| ==> schema[k] != RepBytes && !schema[k].RepMsg?
    requires forall k :: 0 <= k < |schema| && m.fields[k].Blob? ==> Small(m.fields[k].b)
    ensures |EncodeFrom(schema, m, i)| <= (|schema| - i) * (MAX_SLICE + 11) <= MAX_INT
    decreases |schema| - i
  {
    if i < |schema| {
      FlatSize(schema, m, i + 1);
      var v := m.fields[i];
      assert FitsValue(schema[i], v);
      if schema[i] == Bytes {
        VarintRoundTrip(|v.b|, [], []);
      } else {
        VarintRoundTrip(Unsigned64(v.n), [], []);
      }
      assert |EncodeValue(schema[i], i + 1, v)| <= MAX_SLICE + 11;
    }
  }

  // ---------- EpochByHash ----------

  const EPOCH: Schema := [U32]

  function MarshalEpoch(epoch: uint32): bytes {
    Encode(EPOCH, Msg([Num(epoch)]))
  }

  function UnmarshalEpoch(data: bytes): Result<uint32, Error> {
    var (m, err) := Unmarshal(EPOCH, data, Empty(EPOCH));
    if err.Some? then Err(err.value) else Ok(Uint32At(m, 0))
  }

  lemma EpochRoundTrip(epoch: uint32)
    ensures UnmarshalEpoch(MarshalEpoch(epoch)) == Ok(epoch)
  {
    var m := Msg([Num(epoch)]);
    FlatSize(EPOCH, m, 0);
    MarshalThenUnmarshal(EPOCH, m);
  }

  // ---------- MiniblockMetadata ----------

  const METADATA: Schema := [U32, U32, U64, U64, Bytes, Bytes, Bytes, U32, U64, U64, Bytes, Bytes, I32]

  datatype MiniblockMetadata = MiniblockMetadata(
    sourceShardID: uint32,
    destinationShardID: uint32,
    round: uint64,
    headerNonce: uint64,
    headerHash: bytes,
    miniblockHash: bytes,
    deprecatedStatus: bytes,
    epoch: uint32,
    notarizedAtSourceInMetaNonce: uint64,
    notarizedAtDestinationInMetaNonce: uint64,
    notarizedAtSourceInMetaHash: bytes,
    notarizedAtDestinationInMetaHash: bytes,
    blockType: int32)
  {
    predicate InMemory() {
      && Small(headerHash) && Small(miniblockHash) && Small(deprecatedStatus)
      && Small(notarizedAtSourceInMetaHash) && Small(notarizedAtDestinationInMetaHash)
    }

    function ToMsg(): (m: Msg)
      ensures Fits(METADATA, m)
    {
      Msg([Num(sourceShardID), Num(destinationShardID), Num(round), Num(headerNonce), Blob(headerHash),
           Blob(miniblockHash), Blob(deprecatedStatus), Num(epoch), Num(notarizedAtSourceInMetaNonce),
           Num(notarizedAtDestinationInMetaNonce), Blob(notarizedAtSourceInMetaHash),
           Blob(notarizedAtDestinationInMetaHash), Num(blockType)])
    }
  }

  function MetadataOf(m: Msg): MiniblockMetadata
    requires Fits(METADATA, m)
  {
    MiniblockMetadata(
      Uint32At(m, 0), Uint32At(m, 1), Uint64At(m, 2), Uint64At(m, 3),
      BytesAt(m, 4), BytesAt(m, 5), BytesAt(m, 6), Uint32At(m, 7),
      Uint64At(m, 8), Uint64At(m, 9), BytesAt(m, 10), BytesAt(m, 11),
      Int32At(m, 12))
  }

  lemma {:induction false} MetadataHasTypedFields(m: Msg)
    requires Fits(METADATA, m)
    ensures MetadataOf(m).ToMsg() == m
  {
    assert MetadataOf(m).ToMsg().fields == m.fields by {
      forall i | 0 <= i < 13
        ensures MetadataOf(m).ToMsg().fields[i] == m.fields[i]
      {
        assert FitsValue(METADATA[i], m.fields[i]);
      }
    }
  }

  function MarshalMetadata(md: MiniblockMetadata): bytes {
    Encode(METADATA, md.ToMsg())
  }

  function UnmarshalMetadata(data: bytes): Result<MiniblockMetadata, Error> {
    var (m, err) := Unmarshal(METADATA, data, Empty(METADATA));
    if err.Some? then Err(err.value) else Ok(MetadataOf(m))
  }

  /** Every metadata record survives being stored, negative types included. */
  lemma {:induction false} MetadataRoundTrip(md: MiniblockMetadata)
    requires md.InMemory()
    ensures UnmarshalMetadata(MarshalMetadata(md)) == Ok(md)
  {
    MetadataSize(md);
    MarshalThenUnmarshal(METADATA, md.ToMsg());
    MetadataOfItsMsg(md);
  }

  lemma MetadataKinds()
    ensures |METADATA| == 13 && Int32OnTop(METADATA)
    ensures forall j :: 0 <= j < 13 ==> (METADATA[j] == I32 <==> j == 12)
  {
  }

  lemma MetadataSize(md: MiniblockMetadata)
    requires md.InMemory()
    ensures |MarshalMetadata(md)| <= MAX_INT
  {
    FlatSize(METADATA, md.ToMsg(), 0);
  }

  lemma MetadataOfItsMsg(md: MiniblockMetadata)
    ensures MetadataOf(md.ToMsg()) == md
  {
  }

  /** Re-encoding accepted metadata adds 5 bytes when the type was read as negative, and none otherwise. */
  lemma {:induction false} MetadataReencoding(data: bytes)
    requires UnmarshalMetadata(data).Ok?
    ensures var md := UnmarshalMetadata(data).value;
            |MarshalMetadata(md)| <= |data| + if md.blockType < 0 then 5 else 0
  {
    var m := Unmarshal(METADATA, data, Empty(METADATA)).0;
    var md := MetadataOf(m);
    assert md.ToMsg() == m && m.fields[12] == Num(md.blockType) by {
      MetadataHasTypedFields(m);
    }
    MetadataKinds();
    ReencodingWithOneInt32(METADATA, 12, data);
  }

  /** The same record with its type in 5 varint bytes: its low 32 bits, without the sign extension. */
  function ShortForm(md: MiniblockMetadata): bytes {
    MarshalMetadata(md.(blockType := 0)) + ([Tag(13, 0)] + Varint(Low32(md.blockType)))
  }

  /** Every record with a negative type is also accepted in a form that is exactly 5 bytes shorter than its encoding. */
  lemma {:induction false} NegativeTypeGrowsByFive(md: MiniblockMetadata)
    requires md.InMemory() && md.blockType < 0
    ensures UnmarshalMetadata(ShortForm(md)) == Ok(md)
    ensures |MarshalMetadata(md)| == |ShortForm(md)| + 5
  {
    var m0 := md.(blockType := 0).ToMsg();
    ShortFormSize(md);
    MetadataKinds();
    ShortFormIsRead(METADATA, 12, m0, Low32(md.blockType), Encode(METADATA, m0), [Tag(13, 0)] + Varint(Low32(md.blockType)));
    TypeInPlace(md);
    UnmarshalledMetadata(ShortForm(md), md);
  }

  lemma TypeInPlace(md: MiniblockMetadata)
    ensures Msg(md.(blockType := 0).ToMsg().fields[12 := Num(FromRaw(I32, Low32(md.blockType)))]) == md.ToMsg()
  {
  }

  lemma UnmarshalledMetadata(data: bytes, md: MiniblockMetadata)
    requires Unmarshal(METADATA, data, Empty(METADATA)) == (md.ToMsg(), None)
    ensures UnmarshalMetadata(data) == Ok(md)
  {
    MetadataOfItsMsg(md);
  }

  lemma ShortFormSize(md: MiniblockMetadata)
    requires md.InMemory() && md.blockType < 0
    ensures |MarshalMetadata(md)| == |ShortForm(md)| + 5 <= MAX_INT
  {
    var m0 := md.(blockType := 0).ToMsg();
    assert md.ToMsg().fields == m0.fields[12 := Num(md.blockType)];
    TypeVarints(md.blockType);
    TypeSize(m0, md.blockType);
    MetadataSize(md);
  }

  lemma {:induction false} ShortFormIsRead(schema: Schema, i: nat, m: Msg, raw: uint64, first: bytes, last: bytes)
    requires OneByteTags(schema) && i < |schema| && schema[i].IsNumber() && Fits(schema, m)
    requires first == Encode(schema, m) && last == [Tag(i + 1, 0)] + Varint(raw) && |first| + |last| <= MAX_INT
    ensures Unmarshal(schema, first + last, Empty(schema)) == (Msg(m.fields[i := Num(FromRaw(schema[i], raw))]), None)
  {
    EncodedMessageIsMerged(schema, Empty(schema), m);
    MergeIntoEmpty(schema, m);
    RawNumberIsRead(schema, i, raw, last, m, Num(FromRaw(schema[i], raw)));
    ParseConcat(schema, first, last, Empty(schema));
  }

  /** A negative type takes 5 bytes as a 32-bit number and 10 sign-extended. */
  lemma TypeVarints(n: int32)
    requires n < 0
    ensures |Varint(Low32(n))| == 5 && |Varint(Unsigned64(n))| == 10
  {
    Pow128Table();
    assert Pow128(4) == 0x1000_0000 && Pow128(5) == 0x8_0000_0000;
    VarintLenAtLeast(Low32(n), 4);
    VarintLenBound(Low32(n), 5);
    VarintLenAtLeast(Unsigned64(n), 9);
    VarintLenBound(Unsigned64(n), 10);
  }

  lemma {:induction false} TypeSize(m0: Msg, n: int32)
    requires Fits(METADATA, m0) && m0.fields[12] == Num(0) && n < 0
    ensures Fits(METADATA, Msg(m0.fields[12 := Num(n)]))
    ensures |Encode(METADATA, Msg(m0.fields[12 := Num(n)]))| == |Encode(METADATA, m0)| + 11
  {
    var m := Msg(m0.fields[12 := Num(n)]);
    MetadataKinds();
    TypeVarints(n);
    WeightOfUpdate(METADATA, m0, 12, Num(n), 0);
    SizeIsWeightAndPadding(METADATA, m0, 0);
    SizeIsWeightAndPadding(METADATA, m, 0);
    PaddingOfOne(METADATA, m0, 12, 0);
    PaddingOfOne(METADATA, m, 12, 0);
  }

  /** Exactly the records with a negative type have an accepted form that is shorter than their own encoding. */
  lemma GrowsExactlyWhenNegative(md: MiniblockMetadata)
    requires md.InMemory()
    ensures (exists data :: UnmarshalMetadata(data) == Ok(md) && |data| < |MarshalMetadata(md)|) <==> md.blockType < 0
  {
    if md.blockType < 0 {
      NegativeTypeGrowsByFive(md);
    }
    forall data | UnmarshalMetadata(data) == Ok(md) && |data| < |MarshalMetadata(md)|
      ensures md.blockType < 0
    {
      MetadataReencoding(data);
    }
  }

  // ---------- consensus Message ----------

  const CONSENSUS: Schema :=
    [Bytes, Bytes, Bytes, Bytes, Bytes, Bytes, I64, I64, Bytes, Bytes, Bytes, Bytes, Bytes, Bytes]

  datatype ConsensusMessage = ConsensusMessage(
    blockHeaderHash: bytes,
    signatureShare: bytes,
    body: bytes,
    header: bytes,
    pubKey: bytes,
    signature: bytes,
    msgType: int64,
    roundIndex: int64,
    chainID: bytes,
    pubKeysBitmap: bytes,
    aggregateSignature: bytes,
    leaderSignature: bytes,
    originatorPid: bytes,
    invalidSigners: bytes)
  {
    predicate InMemory() {
      && Small(blockHeaderHash) && Small(signatureShare) && Small(body) && Small(header) && Small(pubKey)
      && Small(signature) && Small(chainID) && Small(pubKeysBitmap) && Small(aggregateSignature)
      && Small(leaderSignature) && Small(originatorPid) && Small(invalidSigners)
    }

    function ToMsg(): (m: Msg)
      ensures Fits(CONSENSUS, m)
    {
      Msg([Blob(blockHeaderHash), Blob(signatureShare), Blob(body), Blob(header), Blob(pubKey), Blob(signature),
           Num(msgType), Num(roundIndex), Blob(chainID), Blob(pubKeysBitmap), Blob(aggregateSignature),
           Blob(leaderSignature), Blob(originatorPid), Blob(invalidSigners)])
    }
  }

  lemma ConsensusLowFields(m: Msg)
    requires Fits(CONSENSUS, m)
    ensures forall i :: 0 <= i < 6 ==> FitsValue(Bytes, m.fields[i])
    ensures FitsValue(I64, m.fields[6]) && FitsValue(I64, m.fields[7])
  {
    assert forall i :: 0 <= i < 6 ==> CONSENSUS[i] == Bytes;
  }

  lemma ConsensusHighFields(m: Msg)
    requires Fits(CONSENSUS, m)
    ensures forall i :: 8 <= i < 14 ==> FitsValue(Bytes, m.fields[i])
  {
    assert forall i :: 8 <= i < 14 ==> CONSENSUS[i] == Bytes;
  }

  function ConsensusOf(m: Msg): ConsensusMessage
    requires Fits(CONSENSUS, m)
  {
    ConsensusLowFields(m);
    ConsensusHighFields(m);
    ConsensusMessage(
      BytesAt(m, 0), BytesAt(m, 1), BytesAt(m, 2), BytesAt(m, 3),
      BytesAt(m, 4), BytesAt(m, 5), Int64At(m, 6), Int64At(m, 7),
      BytesAt(m, 8), BytesAt(m, 9), BytesAt(m, 10), BytesAt(m, 11),
      BytesAt(m, 12), BytesAt(m, 13))
  }

  lemma {:induction false} ConsensusHasTypedFields(m: Msg)
    requires Fits(CONSENSUS, m)
    ensures ConsensusOf(m).ToMsg() == m
  {
    assert ConsensusOf(m).ToMsg().fields == m.fields by {
      forall i | 0 <= i < 14
        ensures ConsensusOf(m).ToMsg().fields[i] == m.fields[i]
      {
        assert FitsValue(CONSENSUS[i], m.fields[i]);
      }
    }
  }

  function MarshalConsensus(c: ConsensusMessage): bytes {
    Encode(CONSENSUS, c.ToMsg())
  }

  function UnmarshalConsensus(data: bytes): Result<ConsensusMessage, Error> {
    var (m, err) := Unmarshal(CONSENSUS, data, Empty(CONSENSUS));
    if err.Some? then Err(err.value) else Ok(ConsensusOf(m))
  }

  lemma {:induction false} ConsensusRoundTrip(c: ConsensusMessage)
    requires c.InMemory()
    ensures UnmarshalConsensus(MarshalConsensus(c)) == Ok(c)
  {
    ConsensusSize(c);
    MarshalThenUnmarshal(CONSENSUS, c.ToMsg());
    ConsensusOfItsMsg(c);
  }

  lemma ConsensusKinds()
    ensures OneByteTags(CONSENSUS) && NoInt32(CONSENSUS)
  {
  }

  lemma ConsensusSize(c: ConsensusMessage)
    requires c.InMemory()
    ensures |MarshalConsensus(c)| <= MAX_INT
  {
    FlatSize(CONSENSUS, c.ToMsg(), 0);
  }

  lemma ConsensusOfItsMsg(c: ConsensusMessage)
    ensures ConsensusOf(c.ToMsg()) == c
  {
  }

  lemma {:induction false} ConsensusReencoding(data: bytes)
    requires UnmarshalConsensus(data).Ok?
    ensures |MarshalConsensus(UnmarshalConsensus(data).value)| <= |data|
  {
    var m := Unmarshal(CONSENSUS, data, Empty(CONSENSUS)).0;
    var c := ConsensusOf(m);
    assert c.ToMsg() == m by {
      ConsensusHasTypedFields(m);
    }
    ConsensusKinds();
    ReencodingNeverGrowsPlain(CONSENSUS, data);
  }

  // ---------- ResultsHashesByTxHash ----------

  const SC_RESULTS: Schema := [U32, RepBytes]
  const RESULTS: Schema := [Bytes, RepMsg(SC_RESULTS)]

  datatype ScResultsHashesAndEpoch = ScResultsHashesAndEpoch(epoch: uint32, scResultsHashes: seq<bytes>) {
    function ToMsg(): (m: Msg)
      ensures Fits(SC_RESULTS, m)
    {
      Msg([Num(epoch), Blobs(scResultsHashes)])
    }
  }

  datatype ResultsHashesByTxHash = ResultsHashesByTxHash(receiptsHash: bytes, scResults: seq<ScResultsHashesAndEpoch>) {
    function ToMsg(): (m: Msg)
      ensures Fits(RESULTS, m)
    {
      Msg([Blob(receiptsHash), Msgs(seq(|scResults|, i requires 0 <= i < |scResults| => scResults[i].ToMsg()))])
    }
  }

  function ScResultsOf(m: Msg): ScResultsHashesAndEpoch
    requires Fits(SC_RESULTS, m)
  {
    assert FitsValue(SC_RESULTS[0], m.fields[0]) && FitsValue(SC_RESULTS[1], m.fields[1]);
    ScResultsHashesAndEpoch(Uint32At(m, 0), m.fields[1].bs)
  }

  function ResultsOf(m: Msg): ResultsHashesByTxHash
    requires Fits(RESULTS, m)
  {
    assert FitsValue(RESULTS[0], m.fields[0]) && FitsValue(RESULTS[1], m.fields[1]);
    var ms := m.fields[1].ms;
    ResultsHashesByTxHash(BytesAt(m, 0), seq(|ms|, i requires 0 <= i < |ms| => ScResultsOf(ms[i])))
  }

  lemma ResultsHaveTypedFields(m: Msg)
    requires Fits(RESULTS, m)
    ensures ResultsOf(m).ToMsg() == m
  {
    assert FitsValue(RESULTS[1], m.fields[1]);
    var ms, back := m.fields[1].ms, ResultsOf(m).ToMsg().fields[1].ms;
    forall i | 0 <= i < |ms|
      ensures back[i] == ms[i]
    {
      assert FitsValue(SC_RESULTS[1], ms[i].fields[1]);
      assert back[i].fields == ms[i].fields;
    }
    assert back == ms;
    assert ResultsOf(m).ToMsg().fields == m.fields;
  }

  function MarshalResults(r: ResultsHashesByTxHash): bytes {
    Encode(RESULTS, r.ToMsg())
  }

  function UnmarshalResults(data: bytes): Result<ResultsHashesByTxHash, Error> {
    var (m, err) := Unmarshal(RESULTS, data, Empty(RESULTS));
    if err.Some? then Err(err.value) else Ok(ResultsOf(m))
  }

  /** Nested and repeated fields survive as well: empty hashes, zero epochs and empty elements included. */
  lemma {:induction false} ResultsRoundTrip(r: ResultsHashesByTxHash)
    requires |MarshalResults(r)| <= MAX_INT
    ensures UnmarshalResults(MarshalResults(r)) == Ok(r)
  {
    MarshalThenUnmarshal(RESULTS, r.ToMsg());
    var back := ResultsOf(r.ToMsg());
    forall i | 0 <= i < |r.scResults|
      ensures back.scResults[i] == r.scResults[i]
    {
    }
    assert back.scResults == r.scResults;
  }

  lemma {:induction false} ResultsReencoding(data: bytes)
    requires UnmarshalResults(data).Ok?
    ensures |MarshalResults(UnmarshalResults(data).value)| <= |data|
  {
    ResultsHaveTypedFields(Unmarshal(RESULTS, data, Empty(RESULTS)).0);
    ReencodingNeverGrowsPlain(RESULTS, data);
  }

  /**
   * The error of a concatenation can be another one: a receipt hash of no bytes, then one that announces 2^63 - 11 bytes.
   * On its own the second asks for an end past the input; behind the first its end is negative.
   */
  lemma ConcatenationCanChangeTheError(a: bytes, b: bytes)
    requires a == [0x0A, 0x00] && b == [0x0A, 0xF5, 0xFF, 0xFF, 0xFF, 0xFF, 0xFF, 0xFF, 0xFF, 0x7F]
    ensures Unmarshal(RESULTS, a, Empty(RESULTS)) == (Empty(RESULTS), None)
    ensures Unmarshal(RESULTS, b, Empty(RESULTS)) == (Empty(RESULTS), Some(UnexpectedEof))
    ensures Unmarshal(RESULTS, a + b, Empty(RESULTS)) == (Empty(RESULTS), Some(InvalidLength))
  {
    EmptyHash(RESULTS, a, Empty(RESULTS));
    HugeHash(RESULTS, b, Empty(RESULTS));
    ParseConcat(RESULTS, a, b, Empty(RESULTS));
  }

  lemma EmptyHash(schema: Schema, a: bytes, m: Msg)
    requires |schema| == 2 && schema[0] == Bytes && Fits(schema, m) && m.fields[0] == Blob([]) && a == [0x0A, 0x00]
    ensures Parse(schema, a, m) == Outcome(m, None)
  {
    assert ReadVarint(a, 0) == Done(0x0A, 1) && ReadVarint(a, 1) == Done(0, 1);
    assert a[2..2] == [];
    assert ParseField(Bytes, 1, 2, a, 1, m.fields[0]) == FieldOk(Blob([]), 2);
    assert m.fields[0 := Blob([])] == m.fields;
    OneRecord(schema, a, m);
  }

  lemma HugeHash(schema: Schema, b: bytes, m: Msg)
    requires |schema| == 2 && schema[0] == Bytes && Fits(schema, m)
    requires b == [0x0A, 0xF5, 0xFF, 0xFF, 0xFF, 0xFF, 0xFF, 0xFF, 0xFF, 0x7F]
    ensures Parse(schema, b, m) == Outcome(m, Some(Overrun(MAX_INT)))
  {
    HugeLength(b);
    assert ReadVarint(b, 0) == Done(0x0A, 1);
    var v := m.fields[0];
    assert FitsValue(schema[0], v);
    assert ParseField(Bytes, 1, 2, b, 1, v) == FieldErr(v, Overrun(MAX_INT));
    assert m.fields[0 := v] == m.fields;
    assert StoreField(schema, 1, 2, b, 1, m) == Fail(m, Overrun(MAX_INT));
    assert ParseOne(schema, b, m) == Fail(m, Overrun(MAX_INT));
  }

  lemma HugeLength(b: bytes)
    requires b == [0x0A, 0xF5, 0xFF, 0xFF, 0xFF, 0xFF, 0xFF, 0xFF, 0xFF, 0x7F]
    ensures ReadSpan(b, 1) == BadSpan(Overrun(0x7FFF_FFFF_FFFF_FFFF))
  {
    assert ReadGroups(b, 9, 2) == Done(0x7F, 1);
    assert ReadGroups(b, 8, 3) == Done(0x3FFF, 2);
    assert ReadGroups(b, 7, 4) == Done(0x1F_FFFF, 3);
    assert ReadGroups(b, 6, 5) == Done(0xFFF_FFFF, 4);
    assert ReadGroups(b, 5, 6) == Done(0x7_FFFF_FFFF, 5);
    assert ReadGroups(b, 4, 7) == Done(0x3FF_FFFF_FFFF, 6);
    assert ReadGroups(b, 3, 8) == Done(0x1_FFFF_FFFF_FFFF, 7);
    assert ReadGroups(b, 2, 9) == Done(0xFF_FFFF_FFFF_FFFF, 8);
    assert ReadVarint(b, 1) == Done(0x7FFF_FFFF_FFFF_FFF5, 9);
  }
}
