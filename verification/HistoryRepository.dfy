/** The history repository itself: stores of marshalled bytes, updated in place. */
module HistoryRepositories {
  import opened Words
  import opened Skipping
  import opened Wire
  import opened RoundTrip
  import opened Schemas
  import Printer
  import Parser
  import opened History
  import EventsIndex

  datatype LookupError = NotFound | Corrupt(error: Error)

  /** Why recording a block ends early. */
  datatype BlockError = CannotCastToBlockBody | CannotSaveEpochByHash | SuppliesError | RoundError

  // ---------- the marshalizer: the generated codecs on a fresh record ----------

  method MarshalEpochRecord(epoch: uint32) returns (raw: bytes)
    ensures raw == MarshalEpoch(epoch) && |raw| <= MAX_INT
  {
    var m := Msg([Num(epoch)]);
    FlatSize(EPOCH, m, 0);
    var buffer := Printer.Marshal(EPOCH, m);
    raw := buffer[..];
  }

  method UnmarshalEpochRecord(raw: bytes) returns (r: Result<uint32, Error>)
    requires |raw| <= MAX_INT
    ensures r == UnmarshalEpoch(raw)
  {
    var record := new Parser.Message(EPOCH);
    var err := record.Unmarshal(raw);
    if err.Some? {
      return Err(err.value);
    }
    return Ok(Uint32At(Msg(record.fields), 0));
  }

  method MarshalMetadataRecord(md: MiniblockMetadata) returns (raw: bytes)
    requires md.InMemory()
    ensures raw == MarshalMetadata(md) && |raw| <= MAX_INT
  {
    MetadataSize(md);
    MetadataKinds();
    var buffer := Printer.Marshal(METADATA, md.ToMsg());
    raw := buffer[..];
  }

  method UnmarshalMetadataRecord(raw: bytes) returns (r: Result<MiniblockMetadata, Error>)
    requires |raw| <= MAX_INT
    ensures r == UnmarshalMetadata(raw)
  {
    var record := new Parser.Message(METADATA);
    var err := record.Unmarshal(raw);
    if err.Some? {
      return Err(err.value);
    }
    return Ok(MetadataOf(Msg(record.fields)));
  }

  /** The epoch index: bytes by hash. */
  class EpochByHashIndex {
    var storer: map<Slice, bytes>
    ghost var contents: map<Slice, uint32>

    ghost predicate Valid()
      reads this
    {
      && storer.Keys == contents.Keys
      && forall h :: h in storer ==> |storer[h]| <= MAX_INT && UnmarshalEpoch(storer[h]) == Ok(contents[h])
    }

    constructor ()
      ensures Valid() && contents == map[]
    {
      storer, contents := map[], map[];
    }

    method GetEpochByHash(hash: Slice) returns (r: Result<uint32, LookupError>)
      requires Valid()
      ensures r == if hash in contents then Ok(contents[hash]) else Err(NotFound)
    {
      if hash !in storer {
        return Err(NotFound);
      }
      var record := UnmarshalEpochRecord(storer[hash]);
      match record
      case Ok(value) => return Ok(value);
      case Err(e) => return Err(Corrupt(e));
    }

    method SaveEpochByHash(hash: Slice, epoch: uint32, accepts: bool) returns (ok: bool)
      requires Valid()
      modifies this
      ensures Valid() && ok == accepts
      ensures contents == if accepts then old(contents)[hash := epoch] else old(contents)
    {
      var raw := MarshalEpochRecord(epoch);
      ok := accepts;
      if accepts {
        EpochRoundTrip(epoch);
        storer, contents := storer[hash := raw], contents[hash := epoch];
      }
    }
  }

  /** The records' storer, one store an epoch. */
  class MiniblocksMetadataStorer {
    var data: map<Key, bytes>
    ghost var contents: map<Key, MiniblockMetadata>

    ghost predicate Valid()
      reads this
    {
      && data.Keys == contents.Keys
      && forall k :: k in data ==> |data[k]| <= MAX_INT && UnmarshalMetadata(data[k]) == Ok(contents[k])
    }

    constructor ()
      ensures Valid() && contents == map[]
    {
      data, contents := map[], map[];
    }

    /** `putMiniblockMetadata`: the record goes to the store of its own epoch. */
    method Put(hash: Slice, md: MiniblockMetadata, accepts: bool) returns (ok: bool)
      requires Valid() && md.InMemory()
      modifies this
      ensures Valid() && ok == accepts
      ensures contents == if accepts then old(contents)[Key(md.epoch, hash) := md] else old(contents)
    {
      var raw := MarshalMetadataRecord(md);
      ok := accepts;
      if accepts {
        MetadataRoundTrip(md);
        data, contents := data[Key(md.epoch, hash) := raw], contents[Key(md.epoch, hash) := md];
      }
    }

    method GetFromEpoch(hash: Slice, epoch: uint32) returns (r: Result<MiniblockMetadata, LookupError>)
      requires Valid()
      ensures r == if Key(epoch, hash) in contents then Ok(contents[Key(epoch, hash)]) else Err(NotFound)
    {
      if Key(epoch, hash) !in data {
        return Err(NotFound);
      }
      var record := UnmarshalMetadataRecord(data[Key(epoch, hash)]);
      match record
      case Ok(value) => return Ok(value);
      case Err(e) => return Err(Corrupt(e));
    }
  }

  /** The storer of block hashes by round. */
  class BlockHashByRound {
    var data: map<uint64, Slice>

    constructor ()
      ensures data == map[]
    {
      data := map[];
    }

    method Put(round: uint64, hash: Slice, accepts: bool)
      modifies this
      ensures data == if accepts then old(data)[round := hash] else old(data)
    {
      if accepts {
        data := data[round := hash];
      }
    }
  }

  class HistoryRepository {
    const selfShardID: uint32
    const epochByHashIndex: EpochByHashIndex
    const metadataStorer: MiniblocksMetadataStorer
    const eventsHashesByTxHashIndex: EventsIndex.EventsHashesByTxHash
    const blockHashByRound: BlockHashByRound
    var miniblockHashByTxHash: map<Slice, Slice>
    var deduplicationCache: set<string>
    var pendingAtSource: map<Slice, Notification>
    var pendingAtDestination: map<Slice, Notification>
    var pendingAtBoth: map<Slice, Notification>

    /** The state these stores and maps hold. */
    ghost function Abs(): State
      reads this, epochByHashIndex, metadataStorer
    {
      State(epochByHashIndex.contents, metadataStorer.contents, miniblockHashByTxHash, deduplicationCache,
            pendingAtSource, pendingAtDestination, pendingAtBoth)
    }

    ghost predicate Valid()
      reads this, epochByHashIndex, metadataStorer
    {
      epochByHashIndex.Valid() && metadataStorer.Valid() && RecordsAgree(Abs())
    }

    constructor (selfShardID: uint32)
      ensures Valid() && Abs() == INITIAL && this.selfShardID == selfShardID
      ensures eventsHashesByTxHashIndex.Valid() && eventsHashesByTxHashIndex.contents == map[] && blockHashByRound.data == map[]
    {
      this.selfShardID := selfShardID;
      var events := new EventsIndex.EventsHashesByTxHash();
      var rounds := new BlockHashByRound();
      eventsHashesByTxHashIndex, blockHashByRound := events, rounds;
      var index := new EpochByHashIndex();
      var storer := new MiniblocksMetadataStorer();
      epochByHashIndex, metadataStorer := index, storer;
      miniblockHashByTxHash, deduplicationCache := map[], {};
      pendingAtSource, pendingAtDestination, pendingAtBoth := map[], map[], map[];
    }

    method GetMiniblockMetadataByMiniblockHash(hash: Slice) returns (r: Result<MiniblockMetadata, LookupError>)
      requires Valid()
      ensures match LookupByHash(Abs(), hash)
              case Some(md) => r == Ok(md)
              case None => r == Err(NotFound)
    {
      var epoch := epochByHashIndex.GetEpochByHash(hash);
      if epoch.Err? {
        return Err(epoch.error);
      }
      r := metadataStorer.GetFromEpoch(hash, epoch.value);
    }

    method GetMiniblockMetadataByTxHash(hash: Slice) returns (r: Result<MiniblockMetadata, LookupError>)
      requires Valid()
      ensures match LookupByTx(Abs(), hash)
              case Some(md) => r == Ok(md)
              case None => r == Err(NotFound)
    {
      if hash !in miniblockHashByTxHash {
        return Err(NotFound);
      }
      r := GetMiniblockMetadataByMiniblockHash(miniblockHashByTxHash[hash]);
    }

    method RecordMiniblock(hdr: Header, mb: Miniblock, env: Env)
      requires Valid()
      modifies this, epochByHashIndex, metadataStorer
      ensures Valid() && Abs() == History.RecordMiniblock(old(Abs()), hdr, mb, env)
    {
      ghost var st := Abs();
      RecordMiniblockAgrees(st, hdr, mb, env);
      var key := DedupKey(Key(hdr.epoch, mb.hash));
      if key in deduplicationCache {
        return;
      }
      var ok := epochByHashIndex.SaveEpochByHash(mb.hash, hdr.epoch, mb.hash !in env.epochPutFails);
      if !ok {
        return;
      }
      ok := metadataStorer.Put(mb.hash, FreshRecord(hdr, mb), mb.hash !in env.recordPutFails);
      if !ok {
        return;
      }
      MarkAndIndex(key, mb, env);
    }

    /** The record is there: its key is marked as recently inserted, and its transactions are indexed. */
    method MarkAndIndex(key: string, mb: Miniblock, env: Env)
      requires Valid()
      modifies this`deduplicationCache, this`miniblockHashByTxHash
      ensures Valid()
      ensures Abs() == old(Abs()).(dedup := old(Abs()).dedup - env.evicted + {key},
                                   txs := IndexTxs(old(Abs()).txs, mb.txHashes, mb.hash, env.txPutFails))
    {
      deduplicationCache := deduplicationCache - env.evicted + {key};
      PutTxHashes(mb.txHashes, mb.hash, env.txPutFails);
    }

    method PutTxHashes(txHashes: seq<Slice>, h: Slice, fails: set<Slice>)
      modifies this`miniblockHashByTxHash
      ensures miniblockHashByTxHash == IndexTxs(old(miniblockHashByTxHash), txHashes, h, fails)
    {
      assert txHashes[..0] == [];
      for i := 0 to |txHashes|
        invariant miniblockHashByTxHash == IndexTxs(old(miniblockHashByTxHash), txHashes[..i], h, fails)
      {
        assert txHashes[..i + 1][..i] == txHashes[..i];
        if txHashes[i] in fails {
          continue;
        }
        miniblockHashByTxHash := miniblockHashByTxHash[txHashes[i] := h];
      }
      assert txHashes[..|txHashes|] == txHashes;
    }

    /**
     * Records a committed block: the header's epoch, the miniblocks, the results of the transactions, the supplies (whose
     * outcome is given) and the hash by round. A body of another type is no body.
     */
    method RecordBlock(hdr: Header, body: Option<seq<Miniblock>>, intraShard: seq<Miniblock>, scrs: EventsIndex.Pool, receipts: EventsIndex.Pool,
                       suppliesFail: bool, roundFails: bool, resultsFail: set<Slice>, env: Env)
        returns (err: Option<BlockError>, ghost batch: EventsIndex.Results, ghost refused: set<Slice>)
      requires Valid() && eventsHashesByTxHashIndex.Valid()
      modifies this, epochByHashIndex, metadataStorer, eventsHashesByTxHashIndex, blockHashByRound
      ensures Valid() && eventsHashesByTxHashIndex.Valid()
      ensures err == if body.None? then Some(CannotCastToBlockBody)
                     else if hdr.hash in env.epochPutFails then Some(CannotSaveEpochByHash)
                     else if suppliesFail then Some(SuppliesError)
                     else if roundFails then Some(RoundError) else None
      ensures Abs() == if body.None? then old(Abs()) else History.RecordBlock(old(Abs()), hdr, body.value, intraShard, env)
      ensures blockHashByRound.data == if err.None? then old(blockHashByRound.data)[hdr.round := hdr.hash] else old(blockHashByRound.data)
      ensures eventsHashesByTxHashIndex.contents ==
              if err == Some(CannotCastToBlockBody) || err == Some(CannotSaveEpochByHash) then old(eventsHashesByTxHashIndex.contents)
              else EventsIndex.AfterSave(old(eventsHashesByTxHashIndex.contents), batch, refused)
      ensures err != Some(CannotCastToBlockBody) && err != Some(CannotSaveEpochByHash) ==>
        && EventsIndex.BatchOf(batch, hdr.epoch, scrs, receipts)
        && forall tx :: tx in batch ==>
             (tx in refused <==> tx in resultsFail || EventsIndex.TooLong(old(eventsHashesByTxHashIndex.contents), tx, batch[tx]))
    {
      batch, refused := map[], {};
      if body.None? {
        return Some(CannotCastToBlockBody), batch, refused;
      }
      var ok := RecordMiniblocks(hdr, body.value, intraShard, env);
      if !ok {
        return Some(CannotSaveEpochByHash), batch, refused;
      }
      batch, refused := eventsHashesByTxHashIndex.SaveResultsHashes(hdr.epoch, scrs, receipts, resultsFail);
      if suppliesFail {
        return Some(SuppliesError), batch, refused;
      }
      blockHashByRound.Put(hdr.round, hdr.hash, !roundFails);
      err := if roundFails then Some(RoundError) else None;
    }

    /** The header's epoch and the miniblocks; `ok` is false when the epoch cannot be saved, and then nothing is recorded. */
    method RecordMiniblocks(hdr: Header, body: seq<Miniblock>, intraShard: seq<Miniblock>, env: Env) returns (ok: bool)
      requires Valid()
      modifies this, epochByHashIndex, metadataStorer
      ensures Valid() && Abs() == History.RecordBlock(old(Abs()), hdr, body, intraShard, env)
      ensures ok == (hdr.hash !in env.epochPutFails)
    {
      ok := epochByHashIndex.SaveEpochByHash(hdr.hash, hdr.epoch, hdr.hash !in env.epochPutFails);
      if !ok {
        return;
      }
      ghost var st := Abs();
      RecordBody(hdr, body, env);
      RecordIntraShard(hdr, intraShard, env);
      RecordAllJoin(st, hdr, NonPeer(body), intraShard, env);
    }

    method RecordBody(hdr: Header, body: seq<Miniblock>, env: Env)
      requires Valid()
      modifies this, epochByHashIndex, metadataStorer
      ensures Valid() && Abs() == RecordAll(old(Abs()), hdr, NonPeer(body), env)
    {
      ghost var st := Abs();
      assert body[..0] == [];
      for i := 0 to |body|
        invariant Valid() && Abs() == RecordAll(st, hdr, NonPeer(body[..i]), env)
      {
        NonPeerAppend(body, i);
        if body[i].blockType == PEER_BLOCK {
          continue;
        }
        RecordAllAppend(st, hdr, NonPeer(body[..i]), body[i], env);
        this.RecordMiniblock(hdr, body[i], env);
      }
      assert body[..|body|] == body;
    }

    method RecordIntraShard(hdr: Header, intraShard: seq<Miniblock>, env: Env)
      requires Valid()
      modifies this, epochByHashIndex, metadataStorer
      ensures Valid() && Abs() == RecordAll(old(Abs()), hdr, intraShard, env)
    {
      ghost var st := Abs();
      assert intraShard[..0] == [];
      for i := 0 to |intraShard|
        invariant Valid() && Abs() == RecordAll(st, hdr, intraShard[..i], env)
      {
        assert intraShard[..i + 1] == intraShard[..i] + [intraShard[i]];
        RecordAllAppend(st, hdr, intraShard[..i], intraShard[i], env);
        this.RecordMiniblock(hdr, intraShard[i], env);
      }
      assert intraShard[..|intraShard|] == intraShard;
    }

    method OnNotarizedMiniblock(n: Notification, shard: uint32, mb: MiniblockHeader)
      requires Valid()
      modifies this`pendingAtSource, this`pendingAtDestination, this`pendingAtBoth
      ensures Valid() && Abs() == EnqueueAll(old(Abs()), NoteOf(selfShardID, n, shard, mb))
    {
      var isIntra := mb.sender == mb.receiver;
      var isToMeta := mb.receiver == METACHAIN;
      var isNotarizedAtSource := mb.sender == shard;
      var isNotarizedAtDestination := mb.receiver == shard;
      var notFromMe, notToMe := mb.sender != selfShardID, mb.receiver != selfShardID;
      var isPeerMiniblock := mb.blockType == PEER_BLOCK;
      if (notFromMe && notToMe) || isPeerMiniblock {
        return;
      }
      ghost var notes := NoteOf(selfShardID, n, shard, mb);
      if isIntra || isToMeta {
        EnqueueAllOne(Abs(), Note(Both, mb.hash, n));
        pendingAtBoth := pendingAtBoth[mb.hash := n];
      } else if isNotarizedAtSource {
        EnqueueAllOne(Abs(), Note(Source, mb.hash, n));
        pendingAtSource := pendingAtSource[mb.hash := n];
      } else if isNotarizedAtDestination {
        EnqueueAllOne(Abs(), Note(Destination, mb.hash, n));
        pendingAtDestination := pendingAtDestination[mb.hash := n];
      }
    }

    method OnNotarizedMiniblocks(n: Notification, shard: uint32, mbs: seq<MiniblockHeader>)
      requires Valid()
      modifies this`pendingAtSource, this`pendingAtDestination, this`pendingAtBoth
      ensures Valid() && Abs() == EnqueueAll(old(Abs()), NotesOfMiniblocks(selfShardID, n, shard, mbs))
    {
      ghost var st := Abs();
      assert mbs[..0] == [];
      for i := 0 to |mbs|
        invariant Valid() && Abs() == EnqueueAll(st, NotesOfMiniblocks(selfShardID, n, shard, mbs[..i]))
      {
        assert mbs[..i + 1][..i] == mbs[..i];
        EnqueueAllAppend(st, NotesOfMiniblocks(selfShardID, n, shard, mbs[..i]), NoteOf(selfShardID, n, shard, mbs[i]));
        OnNotarizedMiniblock(n, shard, mbs[i]);
      }
      assert mbs[..|mbs|] == mbs;
    }

    method OnNotarizedShards(n: Notification, shards: seq<ShardData>)
      requires Valid()
      modifies this`pendingAtSource, this`pendingAtDestination, this`pendingAtBoth
      ensures Valid() && Abs() == EnqueueAll(old(Abs()), NotesOfShards(selfShardID, n, shards))
    {
      ghost var st := Abs();
      assert shards[..0] == [];
      for i := 0 to |shards|
        invariant Valid() && Abs() == EnqueueAll(st, NotesOfShards(selfShardID, n, shards[..i]))
      {
        assert shards[..i + 1][..i] == shards[..i];
        if n.metaNonce < 1 {
          assert NotesOfShards(selfShardID, n, shards[..i + 1]) == NotesOfShards(selfShardID, n, shards[..i]);
          continue;
        }
        EnqueueAllAppend(st, NotesOfShards(selfShardID, n, shards[..i]),
                         NotesOfMiniblocks(selfShardID, n, shards[i].shardID, shards[i].miniblocks));
        OnNotarizedMiniblocks(n, shards[i].shardID, shards[i].miniblocks);
      }
      assert shards[..|shards|] == shards;
    }

    method OnNotarizedHeader(header: NotarizedHeader, hash: Slice)
      requires Valid()
      modifies this`pendingAtSource, this`pendingAtDestination, this`pendingAtBoth
      ensures Valid() && Abs() == EnqueueAll(old(Abs()), NotesOfHeader(selfShardID, header, hash))
    {
      match header
      case OtherHeader =>
      case MetaBlock(nonce, miniblocks, shardInfo) =>
        var n := Notification(nonce, hash);
        EnqueueAllAppend(Abs(), NotesOfMiniblocks(selfShardID, n, METACHAIN, miniblocks), NotesOfShards(selfShardID, n, shardInfo));
        OnNotarizedMiniblocks(n, METACHAIN, miniblocks);
        OnNotarizedShards(n, shardInfo);
    }

    method OnNotarizedHeaders(headers: seq<NotarizedHeader>, hashes: seq<Slice>)
      requires Valid() && |headers| <= |hashes|
      modifies this`pendingAtSource, this`pendingAtDestination, this`pendingAtBoth
      ensures Valid() && Abs() == EnqueueAll(old(Abs()), NotesOf(selfShardID, headers, hashes))
    {
      ghost var st := Abs();
      assert headers[..0] == [];
      for i := 0 to |headers|
        invariant Valid() && Abs() == EnqueueAll(st, NotesOf(selfShardID, headers[..i], hashes))
      {
        assert headers[..i + 1][..i] == headers[..i];
        EnqueueAllAppend(st, NotesOf(selfShardID, headers[..i], hashes), NotesOfHeader(selfShardID, headers[i], hashes[i]));
        OnNotarizedHeader(headers[i], hashes[i]);
      }
      assert headers[..|headers|] == headers;
    }

    method OnNotarizedBlocks(headers: seq<NotarizedHeader>, hashes: seq<Slice>, env: Env)
      requires Valid() && |headers| <= |hashes|
      modifies this, metadataStorer
      ensures Valid() && Abs() == History.OnNotarizedBlocks(old(Abs()), selfShardID, headers, hashes, env)
    {
      OnNotarizedHeaders(headers, hashes);
      ConsumePendingNotifications(env);
    }

    method ConsumePendingNotifications(env: Env)
      requires Valid()
      modifies this, metadataStorer
      ensures Valid() && Abs() == Consume(old(Abs()), env)
    {
      if pendingAtSource == map[] && pendingAtDestination == map[] && pendingAtBoth == map[] {
        NothingPending(Abs(), env);
        return;
      }
      ConsumePendingNotificationsAt(Source, env);
      ConsumePendingNotificationsAt(Destination, env);
      ConsumePendingNotificationsAt(Both, env);
    }

    /** The loop over the keys of one pending map, in whatever order they come. */
    method ConsumePendingNotificationsAt(place: Place, env: Env)
      requires Valid()
      modifies this, metadataStorer
      ensures Valid() && Abs() == ConsumePlace(old(Abs()), place, env)
    {
      ghost var st := Abs();
      var keys := Pending(place).Keys;
      ghost var done: set<Slice> := {};
      NoKeys(st, place, env);
      while keys != {}
        invariant Valid()
        invariant Splits(st.Pending(place).Keys, done, keys)
        invariant Abs() == ConsumeKeys(st, place, done, env)
        decreases |keys|
      {
        var key :| key in keys;
        OneMoreDone(st.Pending(place).Keys, done, keys, key);
        keys := keys - {key};
        ConsumeNext(st, done, place, key, env);
        done := done + {key};
      }
      assert done == st.Pending(place).Keys;
    }

    method ConsumeNext(ghost st: State, ghost done: set<Slice>, place: Place, key: Slice, env: Env)
      requires Valid() && Abs() == ConsumeKeys(st, place, done, env) && RecordsAgree(st) && key !in done
      modifies this, metadataStorer
      ensures Valid() && Abs() == ConsumeKeys(st, place, done + {key}, env)
    {
      OneMoreKey(st, place, done, key, env);
      ConsumeNotification(place, key, env);
    }

    function Pending(place: Place): (pending: map<Slice, Notification>)
      reads this, epochByHashIndex, metadataStorer
      ensures pending == Abs().Pending(place)
    {
      match place
      case Source => pendingAtSource
      case Destination => pendingAtDestination
      case Both => pendingAtBoth
    }

    /** Reads the record, patches it, puts it back, and only then forgets the notification. */
    method ConsumeNotification(place: Place, key: Slice, env: Env)
      requires Valid()
      modifies this, metadataStorer
      ensures Valid() && Abs() == ConsumeOne(old(Abs()), place, key, env)
    {
      if key !in Pending(place) {
        return;
      }
      var metadata := GetMiniblockMetadataByMiniblockHash(key);
      if metadata.Err? {
        return;
      }
      PatchAndForget(place, key, metadata.value, env);
    }

    method PatchAndForget(place: Place, key: Slice, md: MiniblockMetadata, env: Env)
      requires Valid() && key in Abs().Pending(place) && LookupByHash(Abs(), key) == Some(md)
      modifies this, metadataStorer
      ensures Valid() && Abs() == ConsumeOne(old(Abs()), place, key, env)
    {
      ConsumeOneReadable(Abs(), place, key, md, env);
      var ok := PutRecord(key, Patch(md, place, Pending(place)[key]), env);
      if ok {
        Remove(place, key);
      }
    }

    method PutRecord(key: Slice, md: MiniblockMetadata, env: Env) returns (ok: bool)
      requires Valid() && AgreesWith(md, Key(md.epoch, key))
      modifies metadataStorer
      ensures Valid() && ok == (key !in env.recordPutFails)
      ensures Abs() == if ok then old(Abs()).(records := old(Abs()).records[Key(md.epoch, key) := md]) else old(Abs())
    {
      ok := metadataStorer.Put(key, md, key !in env.recordPutFails);
    }

    /** `pendingMap.Remove(key)`. */
    method Remove(place: Place, key: Slice)
      requires Valid()
      modifies this`pendingAtSource, this`pendingAtDestination, this`pendingAtBoth
      ensures Valid() && Abs() == old(Abs()).WithPending(place, old(Abs()).Pending(place) - {key})
    {
      match place
      case Source => pendingAtSource := pendingAtSource - {key};
      case Destination => pendingAtDestination := pendingAtDestination - {key};
      case Both => pendingAtBoth := pendingAtBoth - {key};
    }
  }

  lemma ConsumeOneReadable(st: State, place: Place, h: Slice, md: MiniblockMetadata, env: Env)
    requires RecordsAgree(st) && h in st.Pending(place) && LookupByHash(st, h) == Some(md)
    ensures var patched := Patch(md, place, st.Pending(place)[h]);
            && patched.InMemory() && AgreesWith(patched, Key(md.epoch, h))
            && ConsumeOne(st, place, h, env) ==
               if h in env.recordPutFails then st
               else st.(records := st.records[Key(md.epoch, h) := patched]).WithPending(place, st.Pending(place) - {h})
  {
    assert AgreesWith(md, Key(st.epochs[h], h));
  }

  lemma RecordAllAppend(st: State, hdr: Header, mbs: seq<Miniblock>, mb: Miniblock, env: Env)
    ensures RecordAll(st, hdr, mbs + [mb], env) == History.RecordMiniblock(RecordAll(st, hdr, mbs, env), hdr, mb, env)
  {
    assert (mbs + [mb])[..|mbs|] == mbs;
  }

  lemma {:induction false} RecordAllJoin(st: State, hdr: Header, a: seq<Miniblock>, b: seq<Miniblock>, env: Env)
    ensures RecordAll(st, hdr, a + b, env) == RecordAll(RecordAll(st, hdr, a, env), hdr, b, env)
  {
    if b == [] {
      assert a + b == a;
    } else {
      var k := |b| - 1;
      RecordAllJoin(st, hdr, a, b[..k], env);
      assert (a + b)[..|a + b| - 1] == a + b[..k];
    }
  }

  lemma NonPeerAppend(body: seq<Miniblock>, i: nat)
    requires i < |body|
    ensures NonPeer(body[..i + 1]) == NonPeer(body[..i]) + if body[i].blockType == PEER_BLOCK then [] else [body[i]]
    ensures body[i].blockType == PEER_BLOCK ==> NonPeer(body[..i + 1]) == NonPeer(body[..i])
  {
    assert body[..i + 1][..i] == body[..i];
  }

  lemma NothingPending(st: State, env: Env)
    requires st.source == map[] && st.destination == map[] && st.both == map[]
    ensures Consume(st, env) == st
  {
    NothingAt(st, Source, env);
    NothingAt(st, Destination, env);
    NothingAt(st, Both, env);
  }

  lemma NothingAt(st: State, place: Place, env: Env)
    requires st.Pending(place) == map[]
    ensures ConsumePlace(st, place, env) == st
  {
    NothingToConsume(st, place, st.Pending(place).Keys, env);
  }

  lemma EnqueueAllOne(st: State, note: Note)
    ensures EnqueueAll(st, [note]) == Enqueue(st, note)
  {
    assert [note][..0] == [];
  }

  lemma {:induction false} EnqueueAllAppend(st: State, a: seq<Note>, b: seq<Note>)
    ensures EnqueueAll(st, a + b) == EnqueueAll(EnqueueAll(st, a), b)
  {
    if b == [] {
      assert a + b == a;
    } else {
      var k := |b| - 1;
      EnqueueAllAppend(st, a, b[..k]);
      assert (a + b)[..|a + b| - 1] == a + b[..k];
    }
  }
}
